module Catches {
  // The table of catch handlers (beam_catches.c).  Three pools, one for each code
  // index, share vectors of slots; in each vector the free slots and the catches of
  // every module are threaded into lists through the slots themselves.

  import opened Options

  const DEFAULT_TABSIZE: nat := 1024
  const NIL := -1
  const NUM_CODE_IX: nat := 3

  type CodePtr = nat
  type Mod = nat
  type Vec = nat

  datatype Slot = Slot(cp: Option<CodePtr>, cdr: int)

  datatype Pool = Pool(freeList: int, highMark: nat, tabsize: nat, vec: Vec)

  // ----- lists threaded through the slots

  /** Following cdr from head visits exactly xs and then ends. */
  predicate Chain(slots: seq<Slot>, head: int, xs: seq<nat>)
    decreases |xs|
  {
    if xs == [] then head == NIL
    else head == xs[0] && xs[0] < |slots| && Chain(slots, slots[xs[0]].cdr, xs[1..])
  }

  function Head(xs: seq<nat>): int {
    if xs == [] then NIL else xs[0]
  }

  predicate NoDup(xs: seq<nat>) {
    forall i, j :: 0 <= i < j < |xs| ==> xs[i] != xs[j]
  }

  lemma {:induction false} ChainHead(slots: seq<Slot>, head: int, xs: seq<nat>)
    requires Chain(slots, head, xs)
    ensures head == Head(xs) && forall j :: 0 <= j < |xs| ==> xs[j] < |slots|
    decreases |xs|
  {
    if xs != [] {
      ChainHead(slots, slots[xs[0]].cdr, xs[1..]);
    }
  }

  /** A list is not disturbed by a change of slots outside it, or by growth. */
  lemma {:induction false} ChainFrame(slots: seq<Slot>, slots': seq<Slot>, head: int, xs: seq<nat>)
    requires Chain(slots, head, xs) && |slots| <= |slots'|
    requires forall j :: 0 <= j < |xs| && xs[j] < |slots| ==> slots'[xs[j]].cdr == slots[xs[j]].cdr
    ensures Chain(slots', head, xs)
    decreases |xs|
  {
    if xs != [] {
      ChainFrame(slots, slots', slots[xs[0]].cdr, xs[1..]);
    }
  }

  /** A chain that ends has no cycle. */
  lemma {:induction false} ChainNoDup(slots: seq<Slot>, head: int, xs: seq<nat>)
    requires Chain(slots, head, xs)
    ensures NoDup(xs)
    decreases |xs|
  {
    if xs != [] {
      ChainNoDup(slots, slots[xs[0]].cdr, xs[1..]);
      if j :| 1 <= j < |xs| && xs[j] == xs[0] {
        ChainSuffix(slots, head, xs, j);
        ChainUnique(slots, head, xs, xs[j..]);
      }
    }
  }

  lemma {:induction false} ChainSuffix(slots: seq<Slot>, head: int, xs: seq<nat>, j: nat)
    requires Chain(slots, head, xs) && j < |xs|
    ensures Chain(slots, xs[j], xs[j..])
    decreases |xs|
  {
    if j > 0 {
      ChainSuffix(slots, slots[xs[0]].cdr, xs[1..], j - 1);
      assert xs[1..][j - 1..] == xs[j..];
    }
  }

  lemma {:induction false} ChainUnique(slots: seq<Slot>, head: int, xs: seq<nat>, ys: seq<nat>)
    requires Chain(slots, head, xs) && Chain(slots, head, ys)
    ensures xs == ys
    decreases |xs|
  {
    if xs != [] && ys != [] {
      ChainUnique(slots, slots[xs[0]].cdr, xs[1..], ys[1..]);
      assert xs == [xs[0]] + xs[1..] && ys == [ys[0]] + ys[1..];
    }
  }

  // ----- one pool

  /** A vector with its free list, and the lists that are meant to be in it. */
  datatype Table = Table(slots: seq<Slot>, freeHead: int, free: seq<nat>, mods: map<Mod, seq<nat>>, owner: seq<Option<Mod>>)

  /** The free list and the lists of the modules cover the slots below the high mark,
      each slot once. */
  ghost predicate Ok(t: Table) {
    && |t.owner| <= |t.slots|
    && Chain(t.slots, t.freeHead, t.free)
    && (forall m :: m in t.mods ==> Chain(t.slots, Head(t.mods[m]), t.mods[m]))
    && Owned(t)
  }

  /** xs are exactly the slots of o. */
  ghost predicate Holds(owner: seq<Option<Mod>>, xs: seq<nat>, o: Option<Mod>) {
    forall n: nat :: n in xs <==> n < |owner| && owner[n] == o
  }

  ghost predicate Owned(t: Table) {
    && Holds(t.owner, t.free, None)
    && (forall m :: m in t.mods ==> Holds(t.owner, t.mods[m], Some(m)))
    && (forall n :: 0 <= n < |t.owner| && t.owner[n].Some? ==> t.owner[n].value in t.mods)
  }

  /** A slot is taken from the free list for module m. */
  function Pop(t: Table, m: Mod, cp: CodePtr): Table
    requires t.free != [] && m in t.mods && t.free[0] < |t.slots| && t.free[0] < |t.owner|
  {
    var i := t.free[0];
    Table(t.slots[i := Slot(Some(cp), Head(t.mods[m]))], t.slots[i].cdr, t.free[1..],
      t.mods[m := [i] + t.mods[m]], t.owner[i := Some(m)])
  }

  /** The slot at the high mark is taken for module m. */
  function Extend(t: Table, m: Mod, cp: CodePtr): Table
    requires m in t.mods && |t.owner| < |t.slots|
  {
    var i := |t.owner|;
    Table(t.slots[i := Slot(Some(cp), Head(t.mods[m]))], t.freeHead, t.free,
      t.mods[m := [i] + t.mods[m]], t.owner + [Some(m)])
  }

  /** The first slot of module m is freed. */
  function FreeOne(t: Table, m: Mod): Table
    requires m in t.mods && t.mods[m] != [] && t.mods[m][0] < |t.slots| && t.mods[m][0] < |t.owner|
  {
    var i := t.mods[m][0];
    Table(t.slots[i := Slot(None, t.freeHead)], i, [i] + t.free, t.mods[m := t.mods[m][1..]], t.owner[i := None])
  }

  lemma TailIn(xs: seq<nat>, n: nat)
    requires xs != [] && NoDup(xs)
    ensures n in xs[1..] <==> n in xs && n != xs[0]
  {
    if n in xs {
      var j :| 0 <= j < |xs| && xs[j] == n;
      assert j > 0 ==> xs[1..][j - 1] == n;
    }
  }

  lemma ConsIn(xs: seq<nat>, i: nat, n: nat)
    ensures n in [i] + xs <==> n == i || n in xs
  {
  }

  lemma FreeInRange(t: Table)
    requires Ok(t) && t.free != []
    ensures t.free[0] < |t.owner| && t.owner[t.free[0]] == None
  {
    assert t.free[0] in t.free;
  }

  lemma ModInRange(t: Table, m: Mod)
    requires Ok(t) && m in t.mods && t.mods[m] != []
    ensures t.mods[m][0] < |t.owner| && t.owner[t.mods[m][0]] == Some(m)
  {
    assert Holds(t.owner, t.mods[m], Some(m)) && t.mods[m][0] in t.mods[m];
  }

  lemma PopOwned(t: Table, m: Mod, cp: CodePtr)
    requires Ok(t) && t.free != [] && m in t.mods && t.free[0] < |t.owner|
    ensures Owned(Pop(t, m, cp))
  {
    var i, t' := t.free[0], Pop(t, m, cp);
    ChainNoDup(t.slots, t.freeHead, t.free);
    forall n: nat ensures n in t'.free <==> n < |t'.owner| && t'.owner[n] == None {
      TailIn(t.free, n);
    }
    forall k | k in t'.mods ensures Holds(t'.owner, t'.mods[k], Some(k)) {
      assert Holds(t.owner, t.mods[k], Some(k));
    }
  }

  lemma PopKeeps(t: Table, m: Mod, cp: CodePtr)
    requires Ok(t) && t.free != [] && m in t.mods
    ensures t.free[0] < |t.owner| && Ok(Pop(t, m, cp))
  {
    FreeInRange(t);
    PopOwned(t, m, cp);
    var i, t' := t.free[0], Pop(t, m, cp);
    ChainNoDup(t.slots, t.freeHead, t.free);
    ChainFrame(t.slots, t'.slots, t.slots[i].cdr, t.free[1..]);
    forall k | k in t'.mods ensures Chain(t'.slots, Head(t'.mods[k]), t'.mods[k]) {
      assert Holds(t.owner, t.mods[k], Some(k)) && i !in t.mods[k];
      ChainFrame(t.slots, t'.slots, Head(t.mods[k]), t.mods[k]);
      if k == m {
        assert t'.mods[m][1..] == t.mods[m];
      }
    }
  }

  lemma ExtendOwned(t: Table, m: Mod, cp: CodePtr)
    requires Ok(t) && m in t.mods && |t.owner| < |t.slots|
    ensures Owned(Extend(t, m, cp))
  {
    var i, t' := |t.owner|, Extend(t, m, cp);
    forall k | k in t'.mods ensures Holds(t'.owner, t'.mods[k], Some(k)) {
      assert Holds(t.owner, t.mods[k], Some(k));
    }
  }

  lemma ExtendKeeps(t: Table, m: Mod, cp: CodePtr)
    requires Ok(t) && m in t.mods && |t.owner| < |t.slots|
    ensures Ok(Extend(t, m, cp))
  {
    ExtendOwned(t, m, cp);
    var i, t' := |t.owner|, Extend(t, m, cp);
    assert i !in t.free;
    ChainFrame(t.slots, t'.slots, t.freeHead, t.free);
    forall k | k in t'.mods ensures Chain(t'.slots, Head(t'.mods[k]), t'.mods[k]) {
      assert Holds(t.owner, t.mods[k], Some(k)) && i !in t.mods[k];
      ChainFrame(t.slots, t'.slots, Head(t.mods[k]), t.mods[k]);
      if k == m {
        assert t'.mods[m][1..] == t.mods[m];
      }
    }
  }

  lemma FreeOneOwned(t: Table, m: Mod)
    requires Ok(t) && m in t.mods && t.mods[m] != [] && t.mods[m][0] < |t.owner| && t.owner[t.mods[m][0]] == Some(m)
    ensures Owned(FreeOne(t, m))
  {
    var i, t' := t.mods[m][0], FreeOne(t, m);
    ChainNoDup(t.slots, Head(t.mods[m]), t.mods[m]);
    forall n: nat ensures n in t'.free <==> n < |t'.owner| && t'.owner[n] == None {
      ConsIn(t.free, i, n);
    }
    forall k | k in t'.mods ensures Holds(t'.owner, t'.mods[k], Some(k)) {
      assert Holds(t.owner, t.mods[k], Some(k));
      forall n: nat ensures k == m ==> (n in t.mods[m][1..] <==> n in t.mods[m] && n != i) {
        TailIn(t.mods[m], n);
      }
    }
  }

  lemma FreeOneKeeps(t: Table, m: Mod)
    requires Ok(t) && m in t.mods && t.mods[m] != []
    ensures t.mods[m][0] < |t.owner| && Ok(FreeOne(t, m))
  {
    ModInRange(t, m);
    FreeOneOwned(t, m);
    var i, t' := t.mods[m][0], FreeOne(t, m);
    assert i !in t.free;
    ChainFrame(t.slots, t'.slots, t.freeHead, t.free);
    assert t'.free[1..] == t.free;
    forall k | k in t'.mods ensures Chain(t'.slots, Head(t'.mods[k]), t'.mods[k]) {
      if k == m {
        ChainNoDup(t.slots, Head(t.mods[m]), t.mods[m]);
        ChainHead(t.slots, t.slots[i].cdr, t.mods[m][1..]);
        ChainFrame(t.slots, t'.slots, t.slots[i].cdr, t.mods[m][1..]);
      } else {
        assert Holds(t.owner, t.mods[k], Some(k)) && i !in t.mods[k];
        ChainFrame(t.slots, t'.slots, Head(t.mods[k]), t.mods[k]);
      }
    }
  }

  // ----- the three pools

  /** Staging and purging both need the modification permission, so they exclude one another. */
  datatype Phase = Idle | Staging(building: Option<Mod>, loaded: bool) | Ended | Purging(dying: Mod)

  datatype State = State(
    pools: seq<Pool>,
    vecs: map<Vec, seq<Slot>>,        // the vectors that are allocated
    nextVec: Vec,
    active: nat,
    staging: nat,
    phase: Phase,
    free: seq<nat>,                   // the free list of the current pool
    mods: map<Mod, seq<nat>>,         // the slots of every module, first in its list first
    code: map<Mod, seq<CodePtr>>,     // what its slots stand for
    owner: seq<Option<Mod>>,
    known: seq<set<Mod>>)             // the modules each pool was told of, less the purged ones

  /** The pool whose lists are up to date. */
  function Current(st: State): nat {
    if st.phase.Staging? || st.phase.Ended? then st.staging else st.active
  }

  predicate Shape(st: State) {
    && |st.pools| == |st.known| == NUM_CODE_IX && st.active < NUM_CODE_IX && st.staging < NUM_CODE_IX
    && (forall k :: 0 <= k < NUM_CODE_IX ==> Sized(st, st.pools[k]))
    && (forall v :: v in st.vecs ==> v < st.nextVec)
  }

  predicate Sized(st: State, p: Pool) {
    p.vec in st.vecs && p.tabsize == |st.vecs[p.vec]| > 0
  }

  predicate Used(pools: seq<Pool>, v: Vec) {
    exists k :: 0 <= k < |pools| && pools[k].vec == v
  }

  /** No vector outlives the last pool that points to it. */
  predicate NoLeak(st: State) {
    forall v :: v in st.vecs ==> Used(st.pools, v)
  }

  function TableOf(st: State): Table
    requires Shape(st)
  {
    var p := st.pools[Current(st)];
    Table(st.vecs[p.vec], p.freeList, st.free, st.mods, st.owner)
  }

  /** Lookups of the slots xs give cps. */
  predicate Sees(slots: seq<Slot>, xs: seq<nat>, cps: seq<CodePtr>) {
    |xs| == |cps| && forall j :: 0 <= j < |xs| ==> xs[j] < |slots| && slots[xs[j]].cp == Some(cps[j])
  }

  predicate Knows(st: State, k: nat)
    requires Shape(st) && k < NUM_CODE_IX
  {
    forall m :: m in st.known[k] ==> m in st.mods && m in st.code && Sees(st.vecs[st.pools[k].vec], st.mods[m], st.code[m])
  }

  predicate PhaseOk(st: State)
    requires Shape(st)
  {
    match st.phase
    case Idle => st.known[st.active] == st.mods.Keys
    case Staging(building, loaded) =>
      && st.known[st.staging] == st.mods.Keys
      && (!loaded ==> st.pools[st.staging] == st.pools[st.active] && st.known[st.staging] == st.known[st.active] && building.None?)
      && (building.Some? ==> building.value in st.mods)
      && (building.Some? ==> forall k :: 0 <= k < NUM_CODE_IX && k != st.staging ==> building.value !in st.known[k])
    case Ended => st.known[st.staging] == st.mods.Keys
    case Purging(m) => m in st.mods && st.known[st.active] == st.mods.Keys - {m} && forall k :: 0 <= k < NUM_CODE_IX ==> m !in st.known[k]
  }

  ghost predicate Inv(st: State) {
    && Shape(st) && NoLeak(st)
    && Ok(TableOf(st)) && st.pools[Current(st)].highMark == |st.owner|
    && (forall k :: 0 <= k < NUM_CODE_IX ==> Knows(st, k))
    && PhaseOk(st)
  }

  datatype Event = Start | NewModule(m: Mod) | Cons(cp: CodePtr) | End | Commit | Abort | BeginPurge(m: Mod) | FreeSlot | EndPurge

  ghost predicate Enabled(st: State, e: Event) {
    match e
    case Start => st.phase.Idle?
    case NewModule(m) => st.phase.Staging? && m !in st.mods
    case Cons(_) => st.phase.Staging? && st.phase.building.Some?
    case End => st.phase.Staging?
    case Commit => st.phase.Ended?
    case Abort => st.phase.Staging? && !st.phase.loaded
    case BeginPurge(m) => st.phase.Idle? && m in st.mods
    case FreeSlot => st.phase.Purging? && st.phase.dying in st.mods && st.mods[st.phase.dying] != []
    case EndPurge => st.phase.Purging? && st.phase.dying in st.mods && st.mods[st.phase.dying] == []
  }

  /** Frees v unless some pool points to it. */
  function Gc(vecs: map<Vec, seq<Slot>>, pools: seq<Pool>, v: Vec): map<Vec, seq<Slot>> {
    if Used(pools, v) then vecs else vecs - {v}
  }

  function DoStart(st: State): State
    requires Shape(st)
  {
    var pools := st.pools[st.staging := st.pools[st.active]];
    st.(pools := pools, vecs := Gc(st.vecs, pools, st.pools[st.staging].vec),
      known := st.known[st.staging := st.known[st.active]], phase := Staging(None, false))
  }

  const EMPTY := Slot(None, 0)

  function Blank(n: nat): seq<Slot> {
    seq(n, _ => EMPTY)
  }

  /** The full table is copied to one of twice the size; the rest of it is not initialised. */
  function Grow(st: State): State
    requires Shape(st)
  {
    var p := st.pools[st.staging];
    var pools := st.pools[st.staging := p.(vec := st.nextVec, tabsize := 2 * p.tabsize)];
    st.(pools := pools, nextVec := st.nextVec + 1,
      vecs := Gc(st.vecs[st.nextVec := st.vecs[p.vec] + Blank(p.tabsize)], pools, p.vec))
  }

  function WithTable(st: State, t: Table): State
    requires Shape(st)
  {
    var c := Current(st);
    st.(pools := st.pools[c := st.pools[c].(freeList := t.freeHead, highMark := |t.owner|)],
      vecs := st.vecs[st.pools[c].vec := t.slots], free := t.free, mods := t.mods, owner := t.owner)
  }

  function DoCons(st: State, m: Mod, cp: CodePtr): State
    requires Inv(st) && st.phase.Staging? && m in st.mods
  {
    var code := st.code[m := [cp] + (if m in st.code then st.code[m] else [])];
    if st.free != [] then
      PopKeeps(TableOf(st), m, cp);
      WithTable(st, Pop(TableOf(st), m, cp)).(code := code)
    else
      var st1 := if |st.owner| >= st.pools[st.staging].tabsize then Grow(st) else st;
      GrowRoom(st);
      WithTable(st1, Extend(TableOf(st1), m, cp)).(code := code)
  }

  lemma GrowRoom(st: State)
    requires Inv(st) && st.phase.Staging?
    ensures Shape(Grow(st)) && |st.owner| < |TableOf(Grow(st)).slots|
    ensures |st.owner| < st.pools[st.staging].tabsize ==> |st.owner| < |TableOf(st).slots|
  {
  }

  function DoFree(st: State): State
    requires Inv(st) && st.phase.Purging? && st.mods[st.phase.dying] != []
  {
    FreeOneKeeps(TableOf(st), st.phase.dying);
    WithTable(st, FreeOne(TableOf(st), st.phase.dying))
  }

  function Next(st: State, e: Event): State
    requires Inv(st) && Enabled(st, e)
  {
    match e
    case Start => DoStart(st)
    case NewModule(m) => st.(phase := Staging(Some(m), true), mods := st.mods[m := []], code := st.code[m := []],
      known := st.known[st.staging := st.known[st.staging] + {m}])
    case Cons(cp) => DoCons(st, st.phase.building.value, cp)
    case End => st.(phase := Ended)
    case Commit => st.(phase := Idle, active := st.staging, staging := (st.staging + 1) % NUM_CODE_IX)
    case Abort => st.(phase := Idle)
    case BeginPurge(m) => st.(phase := Purging(m), known := Forget(st.known, m))
    case FreeSlot => DoFree(st)
    case EndPurge => st.(phase := Idle, mods := st.mods - {st.phase.dying}, code := st.code - {st.phase.dying})
  }

  function Forget(known: seq<set<Mod>>, m: Mod): seq<set<Mod>> {
    seq(|known|, k requires 0 <= k < |known| => known[k] - {m})
  }

  // ----- every step keeps the invariant

  /** After pool s has left its vector for another, freeing the vector it left if
      nobody else has it keeps exactly the vectors in use. */
  lemma GcExact(pools: seq<Pool>, s: nat, p: Pool, vecs: map<Vec, seq<Slot>>, v: Vec)
    requires s < |pools| && v in vecs
    requires forall w :: w in vecs ==> Used(pools, w) || w == p.vec
    requires v in Gc(vecs, pools[s := p], pools[s].vec)
    ensures Used(pools[s := p], v)
  {
    var pools' := pools[s := p];
    if v == p.vec {
      assert pools'[s].vec == v;
    } else if v != pools[s].vec {
      var k :| 0 <= k < |pools| && pools[k].vec == v;
      assert pools'[k].vec == v;
    }
  }

  lemma StartKeeps(st: State)
    requires Inv(st) && st.phase.Idle?
    ensures Inv(DoStart(st))
  {
    var st' := DoStart(st);
    forall k | 0 <= k < NUM_CODE_IX ensures Sized(st', st'.pools[k]) {
      assert Sized(st, st.pools[k]) && Sized(st, st.pools[st.active]);
      assert Used(st'.pools, st'.pools[k].vec);
    }
    forall v | v in st'.vecs ensures Used(st'.pools, v) {
      GcExact(st.pools, st.staging, st.pools[st.active], st.vecs, v);
    }
    assert TableOf(st') == TableOf(st);
    forall k | 0 <= k < NUM_CODE_IX ensures Knows(st', k) {
      assert Knows(st, k) && Knows(st, st.active);
    }
  }

  lemma GrowShape(st: State)
    requires Inv(st) && st.phase.Staging?
    ensures Shape(Grow(st)) && NoLeak(Grow(st))
  {
    var st' := Grow(st);
    forall k | 0 <= k < NUM_CODE_IX ensures Sized(st', st'.pools[k]) {
      assert Sized(st, st.pools[k]);
      assert Used(st'.pools, st'.pools[k].vec);
    }
    var p := st.pools[st.staging];
    forall v | v in st'.vecs ensures Used(st'.pools, v) {
      GcExact(st.pools, st.staging, st'.pools[st.staging], st.vecs[st.nextVec := st.vecs[p.vec] + Blank(p.tabsize)], v);
    }
  }

  lemma GrowOk(t: Table, t': Table)
    requires Ok(t) && t' == t.(slots := t'.slots) && t.slots <= t'.slots
    ensures Ok(t')
  {
    ChainFrame(t.slots, t'.slots, t.freeHead, t.free);
    forall m | m in t'.mods ensures Chain(t'.slots, Head(t'.mods[m]), t'.mods[m]) {
      ChainFrame(t.slots, t'.slots, Head(t.mods[m]), t.mods[m]);
    }
  }

  lemma GrowKeeps(st: State)
    requires Inv(st) && st.phase.Staging? && st.phase.loaded
    ensures Inv(Grow(st))
  {
    GrowShape(st);
    var st' := Grow(st);
    GrowOk(TableOf(st), TableOf(st'));
    forall k | 0 <= k < NUM_CODE_IX ensures Knows(st', k) {
      assert Knows(st, k);
    }
  }

  /** One slot of the current pool is rewritten, which no module but m holds. */
  lemma WriteKnows(st: State, t: Table, i: nat, x: Slot, m: Mod, k: nat)
    requires Inv(st) && k < NUM_CODE_IX && i < |TableOf(st).slots| && m in t.mods
    requires t.slots == TableOf(st).slots[i := x] && t.mods == st.mods[m := t.mods[m]]
    requires i < |st.owner| ==> st.owner[i] == None || st.owner[i] == Some(m)
    requires m !in st.known[k]
    ensures Shape(WithTable(st, t)) && Knows(WithTable(st, t), k)
  {
    WriteShape(st, t);
    var st' := WithTable(st, t);
    assert Knows(st, k);
    forall n | n in st'.known[k]
      ensures n in st'.mods && n in st'.code && Sees(st'.vecs[st'.pools[k].vec], st'.mods[n], st'.code[n])
    {
      assert Sees(st.vecs[st.pools[k].vec], st.mods[n], st.code[n]);
      assert Holds(st.owner, st.mods[n], Some(n));
      assert i !in st.mods[n];
    }
  }

  lemma WriteShape(st: State, t: Table)
    requires Shape(st) && NoLeak(st) && |t.slots| == |TableOf(st).slots|
    ensures Shape(WithTable(st, t)) && NoLeak(WithTable(st, t))
  {
    var st' := WithTable(st, t);
    forall v | v in st'.vecs ensures Used(st'.pools, v) {
      assert Used(st.pools, v);
      var k :| 0 <= k < |st.pools| && st.pools[k].vec == v;
      assert st'.pools[k].vec == v;
    }
  }

  function WithCode(st: State, m: Mod, cp: CodePtr): State {
    st.(code := st.code[m := [cp] + (if m in st.code then st.code[m] else [])])
  }

  lemma ConsSees(slots: seq<Slot>, xs: seq<nat>, cps: seq<CodePtr>, i: nat, x: Slot, cp: CodePtr)
    requires Sees(slots, xs, cps) && i < |slots| && i !in xs && x.cp == Some(cp)
    ensures Sees(slots[i := x], [i] + xs, [cp] + cps)
  {
  }

  /** Slot i becomes the first of module m, which is being loaded. */
  lemma ConsKnows(st: State, t: Table, i: nat, x: Slot, m: Mod, cp: CodePtr, k: nat)
    requires Inv(st) && st.phase.Staging? && st.phase.building == Some(m) && k < NUM_CODE_IX
    requires i < |TableOf(st).slots| && t.slots == TableOf(st).slots[i := x] && x.cp == Some(cp)
    requires t.mods == st.mods[m := [i] + st.mods[m]]
    requires i < |st.owner| ==> st.owner[i] == None
    ensures Shape(WithTable(st, t)) && Knows(WithCode(WithTable(st, t), m, cp), k)
  {
    var st' := WithCode(WithTable(st, t), m, cp);
    assert Knows(st, k);
    if k != st.staging {
      WriteKnows(st, t, i, x, m, k);
      forall n | n in st'.known[k]
        ensures n in st'.mods && n in st'.code && Sees(st'.vecs[st'.pools[k].vec], st'.mods[n], st'.code[n])
      {
        assert n != m;
      }
    } else {
      WriteShape(st, t);
      forall n | n in st'.known[k]
        ensures n in st'.mods && n in st'.code && Sees(st'.vecs[st'.pools[k].vec], st'.mods[n], st'.code[n])
      {
        assert Sees(st.vecs[st.pools[k].vec], st.mods[n], st.code[n]);
        assert Holds(st.owner, st.mods[n], Some(n)) && i !in st.mods[n];
        if n == m {
          ConsSees(st.vecs[st.pools[k].vec], st.mods[n], st.code[n], i, x, cp);
        }
      }
    }
  }

  /** The invariant after the table of the current pool has been rewritten. */
  lemma Assemble(st: State, t: Table, m: Mod, cp: CodePtr)
    requires Inv(st) && st.phase.Staging? && st.phase.building == Some(m) && st.phase.loaded
    requires Shape(WithTable(st, t)) && NoLeak(WithTable(st, t)) && Ok(t)
    requires t.mods.Keys == st.mods.Keys
    requires forall k :: 0 <= k < NUM_CODE_IX ==> Knows(WithCode(WithTable(st, t), m, cp), k)
    ensures Inv(WithCode(WithTable(st, t), m, cp))
  {
    var st' := WithCode(WithTable(st, t), m, cp);
    assert TableOf(st') == t;
  }

  lemma PopStep(st: State, m: Mod, cp: CodePtr)
    requires Inv(st) && st.phase.Staging? && st.phase.building == Some(m) && st.free != []
    ensures Inv(DoCons(st, m, cp))
  {
    var t := TableOf(st);
    FreeInRange(t);
    PopKeeps(t, m, cp);
    var t' := Pop(t, m, cp);
    WriteShape(st, t');
    forall k | 0 <= k < NUM_CODE_IX ensures Knows(WithCode(WithTable(st, t'), m, cp), k) {
      ConsKnows(st, t', st.free[0], Slot(Some(cp), Head(st.mods[m])), m, cp, k);
    }
    Assemble(st, t', m, cp);
  }

  lemma ExtendStep(st: State, m: Mod, cp: CodePtr)
    requires Inv(st) && st.phase.Staging? && st.phase.building == Some(m) && |st.owner| < |TableOf(st).slots|
    ensures Inv(WithCode(WithTable(st, Extend(TableOf(st), m, cp)), m, cp))
  {
    var t := TableOf(st);
    ExtendKeeps(t, m, cp);
    var t' := Extend(t, m, cp);
    WriteShape(st, t');
    forall k | 0 <= k < NUM_CODE_IX ensures Knows(WithCode(WithTable(st, t'), m, cp), k) {
      ConsKnows(st, t', |st.owner|, Slot(Some(cp), Head(st.mods[m])), m, cp, k);
    }
    Assemble(st, t', m, cp);
  }

  lemma ConsKeeps(st: State, cp: CodePtr)
    requires Inv(st) && Enabled(st, Cons(cp))
    ensures Inv(Next(st, Cons(cp)))
  {
    var m := st.phase.building.value;
    if st.free != [] {
      PopStep(st, m, cp);
    } else {
      GrowRoom(st);
      if |st.owner| >= st.pools[st.staging].tabsize {
        GrowKeeps(st);
        ExtendStep(Grow(st), m, cp);
      } else {
        ExtendStep(st, m, cp);
      }
    }
  }

  lemma FreeKeeps(st: State)
    requires Inv(st) && Enabled(st, FreeSlot)
    ensures Inv(Next(st, FreeSlot))
  {
    var t, m := TableOf(st), st.phase.dying;
    ModInRange(t, m);
    FreeOneKeeps(t, m);
    var t' := FreeOne(t, m);
    WriteShape(st, t');
    forall k | 0 <= k < NUM_CODE_IX ensures Knows(WithTable(st, t'), k) {
      WriteKnows(st, t', st.mods[m][0], Slot(None, t.freeHead), m, k);
    }
    assert TableOf(WithTable(st, t')) == t';
  }

  lemma NewModuleKeeps(st: State, m: Mod)
    requires Inv(st) && Enabled(st, NewModule(m))
    ensures Inv(Next(st, NewModule(m)))
  {
    var st' := Next(st, NewModule(m));
    var t, t' := TableOf(st), TableOf(st');
    forall n | n in t'.mods ensures Chain(t'.slots, Head(t'.mods[n]), t'.mods[n]) && Holds(t'.owner, t'.mods[n], Some(n)) {
      assert n != m ==> Holds(t.owner, t.mods[n], Some(n));
    }
    forall k | 0 <= k < NUM_CODE_IX ensures Knows(st', k) && (k != st.staging ==> m !in st'.known[k]) {
      assert Knows(st, k);
    }
  }

  lemma EndPurgeKeeps(st: State)
    requires Inv(st) && Enabled(st, EndPurge)
    ensures Inv(Next(st, EndPurge))
  {
    var st', m := Next(st, EndPurge), st.phase.dying;
    var t, t' := TableOf(st), TableOf(st');
    assert Holds(t.owner, t.mods[m], Some(m));
    forall n | n in t'.mods ensures Chain(t'.slots, Head(t'.mods[n]), t'.mods[n]) && Holds(t'.owner, t'.mods[n], Some(n)) {
      assert Holds(t.owner, t.mods[n], Some(n));
    }
    forall n | 0 <= n < |t'.owner| && t'.owner[n].Some? ensures t'.owner[n].value in t'.mods {
      assert n !in t.mods[m];
    }
    forall k | 0 <= k < NUM_CODE_IX ensures Knows(st', k) {
      assert Knows(st, k);
    }
  }

  lemma SwitchKeeps(st: State, e: Event)
    requires Inv(st) && Enabled(st, e) && (e.End? || e.Commit? || e.Abort? || e.BeginPurge?)
    ensures Inv(Next(st, e))
  {
    var st' := Next(st, e);
    assert TableOf(st') == TableOf(st);
    forall k | 0 <= k < NUM_CODE_IX ensures Knows(st', k) {
      assert Knows(st, k);
    }
  }

  lemma StepKeepsInv(st: State, e: Event)
    requires Inv(st) && Enabled(st, e)
    ensures Inv(Next(st, e))
  {
    match e
    case Start => StartKeeps(st);
    case NewModule(m) => NewModuleKeeps(st, m);
    case Cons(cp) => ConsKeeps(st, cp);
    case FreeSlot => FreeKeeps(st);
    case EndPurge => EndPurgeKeeps(st);
    case _ => SwitchKeeps(st, e);
  }

  // ----- runs

  function Boot(): State {
    var p := Pool(NIL, 0, DEFAULT_TABSIZE, 0);
    State([p, p, p], map[0 := Blank(DEFAULT_TABSIZE)], 1, 0, 0, Staging(None, false), [], map[], map[], [], [{}, {}, {}])
  }

  lemma BootInv()
    ensures Inv(Boot())
  {
    var st := Boot();
    assert st.vecs[0] == Blank(DEFAULT_TABSIZE);
    assert Used(st.pools, st.pools[0].vec);
  }

  ghost predicate IsRun(st: State, es: seq<Event>, st': State)
    decreases |es|
  {
    if es == [] then st' == st
    else Inv(st) && Enabled(st, es[0]) && IsRun(Next(st, es[0]), es[1..], st')
  }

  lemma {:induction false} RunKeepsInv(st: State, es: seq<Event>, st': State)
    requires Inv(st) && IsRun(st, es, st')
    ensures Inv(st')
    decreases |es|
  {
    if es != [] {
      StepKeepsInv(st, es[0]);
      RunKeepsInv(Next(st, es[0]), es[1..], st');
    }
  }

  /** In every reachable state each slot below the high mark is in the free list or
      in the list of one module, and nowhere else; no list has a cycle. */
  lemma SlotsArePartitioned(es: seq<Event>, st: State, n: nat)
    requires IsRun(Boot(), es, st)
    ensures Inv(st) && (n < |st.owner| <==> n in st.free || exists m :: m in st.mods && n in st.mods[m])
    ensures NoDup(st.free) && forall m :: m in st.mods ==> NoDup(st.mods[m])
    ensures forall m :: m in st.mods && n in st.mods[m] ==> n !in st.free
    ensures forall m, m' :: m in st.mods && m' in st.mods && n in st.mods[m] && n in st.mods[m'] ==> m == m'
  {
    BootInv();
    RunKeepsInv(Boot(), es, st);
    var t := TableOf(st);
    ChainNoDup(t.slots, t.freeHead, t.free);
    forall m | m in st.mods ensures NoDup(st.mods[m]) && Holds(st.owner, st.mods[m], Some(m)) {
      ChainNoDup(t.slots, Head(t.mods[m]), t.mods[m]);
    }
    if n < |st.owner| && st.owner[n].Some? {
      var m := st.owner[n].value;
      assert Holds(st.owner, st.mods[m], Some(m));
    }
  }

  /** What beam_catches_car finds for slot i through pool k. */
  function Car(st: State, k: nat, i: nat): Option<CodePtr>
    requires Shape(st) && k < NUM_CODE_IX
  {
    if i >= st.pools[k].tabsize then None else st.vecs[st.pools[k].vec][i].cp
  }

  /** Through any pool, in every reachable state: the catches of a module that is not
      purged are found in an allocated vector, as they were entered. */
  lemma LookupFinds(es: seq<Event>, st: State, k: nat, m: Mod, j: nat)
    requires IsRun(Boot(), es, st) && k < NUM_CODE_IX && |st.known| == NUM_CODE_IX && m in st.known[k]
    requires m in st.mods && m in st.code && j < |st.mods[m]|
    ensures Inv(st) && j < |st.code[m]| && Car(st, k, st.mods[m][j]) == Some(st.code[m][j])
  {
    BootInv();
    RunKeepsInv(Boot(), es, st);
    assert Knows(st, k);
  }

  lemma ConsKeepsOthers(st: State, cp: CodePtr, m: Mod)
    requires Inv(st) && Enabled(st, Cons(cp)) && m in st.mods && m in st.code && st.phase.building != Some(m)
    ensures var st' := Next(st, Cons(cp));
      && m in st'.mods && st'.mods[m] == st.mods[m] && m in st'.code && st'.code[m] == st.code[m]
      && st'.active == st.active && st'.known == st.known
  {
    var b := st.phase.building.value;
    if st.free != [] {
      PopKeeps(TableOf(st), b, cp);
    } else {
      GrowRoom(st);
    }
  }

  lemma StepKeepsOthers(st: State, e: Event, m: Mod)
    requires Inv(st) && Enabled(st, e) && m in st.known[st.active] && m in st.mods && m in st.code
    requires e != BeginPurge(m) && !(st.phase.Staging? && st.phase.building == Some(m))
    ensures var st' := Next(st, e);
      m in st'.mods && st'.mods[m] == st.mods[m] && m in st'.code && st'.code[m] == st.code[m]
    ensures Shape(Next(st, e)) && m in Next(st, e).known[Next(st, e).active]
  {
    StepKeepsInv(st, e);
    match e
    case Cons(cp) => ConsKeepsOthers(st, cp, m);
    case FreeSlot => FreeOneKeeps(TableOf(st), st.phase.dying);
    case _ =>
  }

  /** No step but its own purge takes a committed module's catches away from the
      readers of the active pool, or changes what they find. */
  lemma LookupSurvives(st: State, e: Event, m: Mod, j: nat)
    requires Inv(st) && Enabled(st, e) && m in st.known[st.active] && m in st.mods && j < |st.mods[m]|
    requires e != BeginPurge(m) && !(st.phase.Staging? && st.phase.building == Some(m))
    ensures Inv(Next(st, e)) && m in Next(st, e).known[Next(st, e).active]
    ensures Car(Next(st, e), Next(st, e).active, st.mods[m][j]) == Car(st, st.active, st.mods[m][j]) != None
  {
    assert Knows(st, st.active);
    StepKeepsOthers(st, e, m);
    StepKeepsInv(st, e);
    var st' := Next(st, e);
    assert Knows(st', st'.active);
    SeesCar(st, st.active, m, j);
    SeesCar(st', st'.active, m, j);
  }

  lemma SeesCar(st: State, k: nat, m: Mod, j: nat)
    requires Shape(st) && k < NUM_CODE_IX && m in st.known[k] && Knows(st, k) && m in st.mods && j < |st.mods[m]|
    ensures m in st.code && j < |st.code[m]| && Car(st, k, st.mods[m][j]) == Some(st.code[m][j])
  {
    assert Sized(st, st.pools[k]);
  }

  // ----- deleting a module

  function Reversed(xs: seq<nat>): seq<nat> {
    if xs == [] then [] else Reversed(xs[1..]) + [xs[0]]
  }

  predicate InArea(cps: seq<CodePtr>, lo: CodePtr, hi: CodePtr) {
    forall j :: 0 <= j < |cps| ==> lo <= cps[j] < hi
  }

  /** The deletion of module m: the lists when it began, and the free list it leads to. */
  datatype Deletion = Deletion(m: Mod, mods: map<Mod, seq<nat>>, all: seq<nat>)

  /** Under way: what is left of the module's list stands for cps. */
  predicate Deleting(st: State, job: Deletion, cps: seq<CodePtr>, lo: CodePtr, hi: CodePtr) {
    && Shape(st) && job.m in st.mods && st.mods == job.mods[job.m := st.mods[job.m]]
    && Reversed(st.mods[job.m]) + st.free == job.all
    && InArea(cps, lo, hi) && Sees(TableOf(st).slots, st.mods[job.m], cps)
  }

  lemma StartDeletion(st: State, lo: CodePtr, hi: CodePtr) returns (job: Deletion)
    requires Inv(st) && st.phase.Purging? && st.phase.dying in st.mods && st.phase.dying in st.code
    requires InArea(st.code[st.phase.dying], lo, hi) && Sees(TableOf(st).slots, st.mods[st.phase.dying], st.code[st.phase.dying])
    ensures Deleting(st, job, st.code[st.phase.dying], lo, hi)
    ensures job == Deletion(st.phase.dying, st.mods, Reversed(st.mods[st.phase.dying]) + st.free)
  {
    var m := st.phase.dying;
    job := Deletion(m, st.mods, Reversed(st.mods[m]) + st.free);
    assert st.mods == st.mods[m := st.mods[m]];
  }

  /** st with module m and the lists as they are in now. */
  function Dying(st: State, m: Mod, now: State): State {
    State(now.pools, now.vecs, st.nextVec, st.active, st.staging, Purging(m), now.free,
      if m in now.mods then st.mods[m := now.mods[m]] else st.mods, st.code, now.owner, Forget(st.known, m))
  }

  lemma OntoFree(l: seq<nat>, free: seq<nat>)
    requires l != []
    ensures Reversed(l[1..]) + ([l[0]] + free) == Reversed(l) + free
  {
    var rest := Reversed(l[1..]);
    assert rest + ([l[0]] + free) == rest + [l[0]] + free;
  }

  lemma FreeFacts(st: State, cps: seq<CodePtr>)
    requires Inv(st) && Enabled(st, FreeSlot) && Sees(TableOf(st).slots, st.mods[st.phase.dying], cps)
    ensures var m, st' := st.phase.dying, Next(st, FreeSlot);
      && st' == Dying(st, m, st') && m in st'.mods && st'.mods[m] == st.mods[m][1..]
      && Reversed(st'.mods[m]) + st'.free == Reversed(st.mods[m]) + st.free
      && Shape(st') && Sees(TableOf(st').slots, st'.mods[m], cps[1..])
  {
    var m, t := st.phase.dying, TableOf(st);
    FreeOneKeeps(t, m);
    ModInRange(t, m);
    ChainNoDup(t.slots, Head(t.mods[m]), t.mods[m]);
    WriteShape(st, FreeOne(t, m));
    OntoFree(st.mods[m], st.free);
    assert forall k :: 0 <= k < NUM_CODE_IX ==> st.known[k] - {m} == st.known[k];
    assert Forget(st.known, m) == st.known;
  }

  // ----- the operations in place

  class CatchTable {
    var pools: seq<Pool>
    var vecs: map<Vec, seq<Slot>>
    var nextVec: Vec
    var active: nat
    var staging: nat
    ghost var phase: Phase
    ghost var free: seq<nat>
    ghost var mods: map<Mod, seq<nat>>
    ghost var code: map<Mod, seq<CodePtr>>
    ghost var owner: seq<Option<Mod>>
    ghost var known: seq<set<Mod>>

    ghost function Now(): State
      reads this
    {
      State(pools, vecs, nextVec, active, staging, phase, free, mods, code, owner, known)
    }

    constructor ()
      ensures Now() == Boot() && Inv(Now())
    {
      var p := Pool(NIL, 0, DEFAULT_TABSIZE, 0);
      pools, vecs, nextVec, active, staging := [p, p, p], map[0 := Blank(DEFAULT_TABSIZE)], 1, 0, 0;
      phase, free, mods, code, owner, known := Staging(None, false), [], map[], map[], [], [{}, {}, {}];
      BootInv();
    }

    method IsUsed(v: Vec) returns (used: bool)
      ensures used == Used(pools, v)
    {
      used := false;
      var k := 0;
      while k < |pools| && !used
        invariant k <= |pools| && (used <==> exists i :: 0 <= i < k && pools[i].vec == v)
      {
        used := pools[k].vec == v;
        k := k + 1;
      }
    }

    method GcOldVec(v: Vec)
      modifies this`vecs
      ensures vecs == Gc(old(vecs), pools, v)
    {
      var used := IsUsed(v);
      if !used {
        vecs := vecs - {v};
      }
    }

    method StartStaging()
      requires Inv(Now()) && phase.Idle?
      modifies this
      ensures Inv(old(Now())) && Now() == Next(old(Now()), Start) && Inv(Now())
    {
      StepKeepsInv(Now(), Start);
      var prev := pools[staging].vec;
      pools := pools[staging := pools[active]];
      GcOldVec(prev);
      known := known[staging := known[active]];
      phase := Staging(None, false);
    }

    ghost method BeginModule(m: Mod)
      requires Inv(Now()) && Enabled(Now(), NewModule(m))
      modifies this`phase, this`mods, this`code, this`known
      ensures Inv(old(Now())) && Enabled(old(Now()), NewModule(m))
      ensures Now() == Next(old(Now()), NewModule(m)) && Inv(Now())
    {
      NewModuleKeeps(Now(), m);
      phase, mods, code, known := Staging(Some(m), true), mods[m := []], code[m := []], known[staging := known[staging] + {m}];
    }

    method GrowTable()
      requires Shape(Now())
      modifies this`pools, this`vecs, this`nextVec
      ensures Shape(old(Now())) && Now() == Grow(old(Now()))
    {
      var p := pools[staging];
      vecs := vecs[nextVec := vecs[p.vec] + Blank(p.tabsize)];
      pools := pools[staging := p.(vec := nextVec, tabsize := 2 * p.tabsize)];
      nextVec := nextVec + 1;
      GcOldVec(p.vec);
    }

    /** The ghost lists follow the slot that was taken. */
    ghost method Track(i: nat, cp: CodePtr)
      requires phase.Staging? && phase.building.Some? && phase.building.value in mods
      requires i == |owner| || (i < |owner| && free != [] && i == free[0])
      modifies this`free, this`mods, this`code, this`owner
      ensures var m := phase.building.value;
        && mods == old(mods)[m := [i] + old(mods)[m]] && code == old(code)[m := [cp] + (if m in old(code) then old(code)[m] else [])]
        && free == (if i < |old(owner)| then old(free)[1..] else old(free))
        && owner == (if i < |old(owner)| then old(owner)[i := Some(m)] else old(owner) + [Some(m)])
    {
      var m := phase.building.value;
      code := code[m := [cp] + (if m in code then code[m] else [])];
      mods := mods[m := [i] + mods[m]];
      if i < |owner| {
        free := free[1..];
        owner := owner[i := Some(m)];
      } else {
        owner := owner + [Some(m)];
      }
    }

    /** Writes slot i and makes it the first of the module's list. */
    method Enter(i: nat, cp: CodePtr, cdr: int)
      requires Shape(Now()) && i < |vecs[pools[staging].vec]|
      requires phase.Staging? && phase.building.Some? && phase.building.value in mods && cdr == Head(mods[phase.building.value])
      requires i == |owner| || (i < |owner| && free != [] && i == free[0])
      modifies this`vecs, this`free, this`mods, this`code, this`owner
      ensures Shape(old(Now())) && vecs == old(vecs)[pools[staging].vec := old(vecs)[pools[staging].vec][i := Slot(Some(cp), cdr)]]
      ensures var m := phase.building.value;
        && mods == old(mods)[m := [i] + old(mods)[m]] && code == old(code)[m := [cp] + (if m in old(code) then old(code)[m] else [])]
        && free == (if i < |old(owner)| then old(free)[1..] else old(free))
        && owner == (if i < |old(owner)| then old(owner)[i := Some(m)] else old(owner) + [Some(m)])
    {
      var v := pools[staging].vec;
      vecs := vecs[v := vecs[v][i := Slot(Some(cp), cdr)]];
      Track(i, cp);
    }

    method ConsFromFree(cp: CodePtr, cdr: int) returns (i: nat)
      requires Shape(Now()) && free != [] && free[0] < |owner| <= |vecs[pools[staging].vec]|
      requires pools[staging].freeList == free[0] && pools[staging].highMark == |owner|
      requires phase.Staging? && phase.building.Some? && phase.building.value in mods && cdr == Head(mods[phase.building.value])
      modifies this`pools, this`vecs, this`free, this`mods, this`code, this`owner
      ensures Shape(old(Now())) && i == old(free[0])
      ensures var m := phase.building.value;
        Now() == WithCode(WithTable(old(Now()), Pop(TableOf(old(Now())), m, cp)), m, cp)
    {
      i := pools[staging].freeList;
      pools := pools[staging := pools[staging].(freeList := vecs[pools[staging].vec][i].cdr)];
      Enter(i, cp, cdr);
    }

    method ConsAtHighMark(cp: CodePtr, cdr: int) returns (i: nat)
      requires Shape(Now()) && pools[staging].highMark == |owner| < |vecs[pools[staging].vec]|
      requires phase.Staging? && phase.building.Some? && phase.building.value in mods && cdr == Head(mods[phase.building.value])
      modifies this`pools, this`vecs, this`free, this`mods, this`code, this`owner
      ensures Shape(old(Now())) && i == |old(owner)|
      ensures var m := phase.building.value;
        Now() == WithCode(WithTable(old(Now()), Extend(TableOf(old(Now())), m, cp)), m, cp)
    {
      i := pools[staging].highMark;
      pools := pools[staging := pools[staging].(highMark := i + 1)];
      Enter(i, cp, cdr);
    }

    method Allocate(cp: CodePtr, cdr: int) returns (i: nat)
      requires Inv(Now()) && phase.Staging? && phase.building.Some? && cdr == Head(mods[phase.building.value])
      modifies this`pools, this`vecs, this`nextVec, this`free, this`mods, this`code, this`owner
      ensures Inv(old(Now())) && Now() == DoCons(old(Now()), phase.building.value, cp)
      ensures phase.building.value in mods && Head(mods[phase.building.value]) == i
    {
      if pools[staging].freeList >= 0 {
        FreeInRange(TableOf(Now()));
        i := ConsFromFree(cp, cdr);
      } else {
        GrowRoom(Now());
        if pools[staging].highMark >= pools[staging].tabsize {
          GrowTable();
        }
        i := ConsAtHighMark(cp, cdr);
      }
    }

    /** beam_catches_cons: the slot it gives was free or new, and now heads the list. */
    method ConsCatch(cp: CodePtr, cdr: int) returns (i: nat)
      requires Inv(Now()) && phase.Staging? && phase.building.Some? && cdr == Head(mods[phase.building.value])
      modifies this`pools, this`vecs, this`nextVec, this`free, this`mods, this`code, this`owner
      ensures Inv(old(Now())) && Now() == Next(old(Now()), Cons(cp)) && Inv(Now())
      ensures Head(mods[phase.building.value]) == i
    {
      ConsKeeps(Now(), cp);
      i := Allocate(cp, cdr);
    }

    method EndStaging()
      requires Inv(Now()) && phase.Staging?
      modifies this`phase
      ensures Inv(Now()) && Now() == old(Now()).(phase := Ended)
    {
      SwitchKeeps(Now(), End);
      phase := Ended;
    }

    method CommitStaging()
      requires Inv(Now()) && phase.Ended?
      modifies this`phase, this`active, this`staging
      ensures Inv(Now()) && phase.Idle? && active == old(staging) && staging == (active + 1) % NUM_CODE_IX
    {
      SwitchKeeps(Now(), Commit);
      active, staging := staging, (staging + 1) % NUM_CODE_IX;
      phase := Idle;
    }

    method AbortStaging()
      requires Inv(Now()) && phase.Staging? && !phase.loaded
      modifies this`phase
      ensures Inv(Now()) && Now() == old(Now()).(phase := Idle)
    {
      SwitchKeeps(Now(), Abort);
      phase := Idle;
    }

    /** beam_catches_car. */
    method Lookup(i: nat) returns (cp: Option<CodePtr>)
      requires Inv(Now())
      ensures cp == Car(Now(), active, i)
      ensures forall m, j :: m in known[active] && m in mods && m in code && 0 <= j < |mods[m]| && mods[m][j] == i ==>
        j < |code[m]| && cp == Some(code[m][j])
    {
      assert Knows(Now(), active) && Sized(Now(), pools[active]);
      var p := pools[active];
      if i >= p.tabsize {
        cp := None;
      } else {
        cp := vecs[p.vec][i].cp;
      }
    }

    /** Frees the slot i, which heads the dying module's list. */
    method DeleteOne(i: nat) returns (next: int)
      requires Inv(Now()) && phase.Purging? && mods[phase.dying] != [] && mods[phase.dying][0] == i
      modifies this`pools, this`vecs, this`free, this`mods, this`owner
      ensures Inv(old(Now())) && Now() == DoFree(old(Now())) && next == Head(mods[phase.dying])
    {
      var m := phase.dying;
      ghost var t := TableOf(Now());
      ModInRange(t, m);
      ChainHead(t.slots, t.slots[i].cdr, t.mods[m][1..]);
      var v := pools[active].vec;
      next := vecs[v][i].cdr;
      vecs := vecs[v := vecs[v][i := Slot(None, pools[active].freeList)]];
      pools := pools[active := pools[active].(freeList := i)];
      free, mods, owner := [i] + free, mods[m := mods[m][1..]], owner[i := None];
    }

    method DeleteNext(i: int, lo: CodePtr, hi: CodePtr, ghost job: Deletion, ghost cps: seq<CodePtr>) returns (ok: bool, ghost cps': seq<CodePtr>, next: int)
      requires Inv(Now()) && phase == Purging(job.m) && Deleting(Now(), job, cps, lo, hi) && i == Head(mods[job.m]) != NIL
      modifies this`pools, this`vecs, this`free, this`mods, this`owner
      ensures Inv(Now()) && ok && Deleting(Now(), job, cps', lo, hi)
      ensures next == Head(mods[job.m]) && |mods[job.m]| < |old(mods[job.m])|
    {
      FreeFacts(Now(), cps);
      FreeKeeps(Now());
      var p := pools[active];
      assert Sized(Now(), p);
      cps' := cps[1..];
      var cp := vecs[p.vec][i].cp;
      ok := i < p.tabsize && cp.Some? && lo <= cp.value < hi;
      next := DeleteOne(i);
    }

    method DeleteList(head: int, lo: CodePtr, hi: CodePtr, ghost job: Deletion, ghost cps0: seq<CodePtr>) returns (ok: bool)
      requires Inv(Now()) && phase == Purging(job.m) && Deleting(Now(), job, cps0, lo, hi) && head == Head(mods[job.m])
      modifies this`pools, this`vecs, this`free, this`mods, this`owner
      ensures Inv(Now()) && ok && mods == job.mods[job.m := []] && free == job.all
    {
      ok := true;
      ghost var cps := cps0;
      var i := head;
      while i != NIL
        invariant Inv(Now()) && ok && Deleting(Now(), job, cps, lo, hi) && i == Head(mods[job.m])
        decreases |mods[job.m]|
      {
        ok, cps, i := DeleteNext(i, lo, hi, job, cps);
      }
      assert [] + free == free;
    }

    /** The purge has found that nothing refers to the module any more. */
    ghost method BeginDelete(m: Mod)
      requires Inv(Now()) && phase.Idle? && m in mods && m in code
      modifies this`phase, this`known
      ensures Inv(Now()) && phase == Purging(m) && Sees(TableOf(Now()).slots, mods[m], code[m])
    {
      assert Knows(Now(), active);
      SwitchKeeps(Now(), BeginPurge(m));
      known, phase := Forget(known, m), Purging(m);
    }

    ghost method EndDelete()
      requires Inv(Now()) && phase.Purging? && mods[phase.dying] == []
      modifies this`phase, this`mods, this`code
      ensures Inv(Now()) && phase.Idle? && mods == old(mods) - {old(phase.dying)} && code == old(code) - {old(phase.dying)}
    {
      EndPurgeKeeps(Now());
      mods, code, phase := mods - {phase.dying}, code - {phase.dying}, Idle;
    }

    /** beam_catches_delmod: all slots of the module go to the free list, and neither
        sanity check stops the system. */
    method DeleteModule(head: int, lo: CodePtr, hi: CodePtr) returns (ok: bool)
      requires Inv(Now()) && phase.Purging? && phase.dying in code && head == Head(mods[phase.dying])
      requires InArea(code[phase.dying], lo, hi) && Sees(TableOf(Now()).slots, mods[phase.dying], code[phase.dying])
      modifies this`pools, this`vecs, this`free, this`mods, this`owner, this`code, this`phase
      ensures Inv(Now())
      ensures ok && phase.Idle? && free == Reversed(old(mods[phase.dying])) + old(free)
      ensures mods == old(mods) - {old(phase.dying)} && code == old(code) - {old(phase.dying)}
    {
      ghost var m := phase.dying;
      ghost var job := StartDeletion(Now(), lo, hi);
      ok := DeleteList(head, lo, hi, job, code[m]);
      EndDelete();
    }
  }
}
