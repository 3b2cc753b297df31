/**
 The breakpoint of one function (beam_bp.c): a list with one entry for each trace
 session, each with an active and a staging half.  The two halves share the
 objects that hold a call count, call time, call memory or meta tracer, which
 are reference counted.  The order of the operations is that of
 debug_bp_finisher in beam_debug.c.

 A request changes staging halves only, so that calls see nothing of it until the
 halves are switched; then the staging halves are made copies of the active ones.
 */
module Breakpoints {
  import opened Options

  type Obj = nat
  type Session = nat

  /** The flags that come with a reference to an object. */
  datatype Kind = Meta | Count | Time | Memory

  /** The other flags. */
  datatype Flag = Local | Global | Debug | CountActive | TimeActive | MemoryActive

  /** A reference is present exactly when its flag is set. */
  datatype Half = Half(meta: Option<Obj>, count: Option<Obj>, time: Option<Obj>, memory: Option<Obj>, flags: set<Flag>)

  const NO_FLAGS := Half(None, None, None, None, {})

  datatype Bp = Bp(session: Session, data: seq<Half>)

  /** What a caller asks for: each call carries one of these. */
  datatype Break = LocalTrace | GlobalTrace | DebugBreak | MetaTrace | CallCount | CallTime | CallMemory

  datatype BreakOp = Nop | Set | Restart | Pause

  type Refc = map<Obj, nat>

  // ----- references in a half

  function Ref(h: Half, k: Kind): Option<Obj> {
    match k
    case Meta => h.meta
    case Count => h.count
    case Time => h.time
    case Memory => h.memory
  }

  function With(h: Half, k: Kind, r: Option<Obj>): Half {
    match k
    case Meta => h.(meta := r)
    case Count => h.(count := r)
    case Time => h.(time := r)
    case Memory => h.(memory := r)
  }

  function Is(r: Option<Obj>, o: Obj): nat {
    if r == Some(o) then 1 else 0
  }

  /** How many references of h are to o. */
  function Held(h: Half, o: Obj): nat {
    Is(h.meta, o) + Is(h.count, o) + Is(h.time, o) + Is(h.memory, o)
  }

  function HeldBp(g: Bp, o: Obj): nat
    requires |g.data| == 2
  {
    Held(g.data[0], o) + Held(g.data[1], o)
  }

  predicate TwoHalves(gs: seq<Bp>) {
    forall i :: 0 <= i < |gs| ==> |gs[i].data| == 2
  }

  function Refs(gs: seq<Bp>, o: Obj): nat
    requires TwoHalves(gs)
  {
    if gs == [] then 0 else HeldBp(gs[0], o) + Refs(gs[1..], o)
  }

  function Rc(m: Refc, o: Obj): nat {
    if o in m then m[o] else 0
  }

  /** Every count is the number of halves that refer to the object, and an object
      nobody refers to is gone. */
  ghost predicate Exact(m: Refc, gs: seq<Bp>)
    requires TwoHalves(gs)
  {
    && (forall o :: o in m ==> m[o] > 0)
    && (forall o :: Rc(m, o) == Refs(gs, o))
  }

  lemma WithHeld(h: Half, k: Kind, r: Option<Obj>, o: Obj)
    ensures Held(With(h, k, r), o) == Held(h, o) - Is(Ref(h, k), o) + Is(r, o)
  {
  }

  function Put(gs: seq<Bp>, i: nat, j: nat, h: Half): seq<Bp>
    requires TwoHalves(gs) && i < |gs| && j < 2
    ensures TwoHalves(Put(gs, i, j, h))
  {
    gs[i := gs[i].(data := gs[i].data[j := h])]
  }

  lemma {:induction false} PutRefs(gs: seq<Bp>, i: nat, j: nat, h: Half, o: Obj)
    requires TwoHalves(gs) && i < |gs| && j < 2
    ensures Refs(Put(gs, i, j, h), o) == Refs(gs, o) - Held(gs[i].data[j], o) + Held(h, o)
  {
    var gs' := Put(gs, i, j, h);
    if i == 0 {
      assert gs'[1..] == gs[1..];
    } else {
      PutRefs(gs[1..], i - 1, j, h, o);
      assert gs'[1..] == Put(gs[1..], i - 1, j, h);
    }
  }

  lemma {:induction false} RefsAtLeast(gs: seq<Bp>, i: nat, o: Obj)
    requires TwoHalves(gs) && i < |gs|
    ensures Refs(gs, o) >= HeldBp(gs[i], o)
  {
    if i > 0 {
      RefsAtLeast(gs[1..], i - 1, o);
    }
  }

  /** A reference in some half is to an object that is not freed. */
  lemma RefIsLive(m: Refc, gs: seq<Bp>, i: nat, j: nat, k: Kind)
    requires TwoHalves(gs) && i < |gs| && j < 2 && Exact(m, gs)
    requires Ref(gs[i].data[j], k).Some?
    ensures Ref(gs[i].data[j], k).value in m
  {
    var o := Ref(gs[i].data[j], k).value;
    RefsAtLeast(gs, i, o);
    assert Held(gs[i].data[j], o) >= 1;
    assert Rc(m, o) >= 1;
  }

  // ----- reference counting

  /** Decrements a count, and frees the object with the last reference. */
  function Unref(m: Refc, r: Option<Obj>): (m': Refc)
    requires (forall o :: o in m ==> m[o] > 0) && (r.Some? ==> r.value in m)
    ensures forall o :: o in m' ==> m'[o] > 0
    ensures m'.Keys <= m.Keys
    ensures forall o :: Rc(m', o) == Rc(m, o) - Is(r, o)
  {
    if r.None? then m else if m[r.value] == 1 then m - {r.value} else m[r.value := m[r.value] - 1]
  }

  function Addref(m: Refc, r: Option<Obj>): (m': Refc)
    requires forall o :: o in m ==> m[o] > 0
    ensures forall o :: o in m' ==> m'[o] > 0
    ensures r.Some? ==> m'.Keys == m.Keys + {r.value}
    ensures r.None? ==> m'.Keys == m.Keys
    ensures forall o :: Rc(m', o) == Rc(m, o) + Is(r, o)
  {
    if r.None? then m else m[r.value := Rc(m, r.value) + 1]
  }

  /** The lists and counts after one reference is replaced. */
  lemma ReplaceKeeps(m: Refc, gs: seq<Bp>, i: nat, j: nat, k: Kind, r: Option<Obj>, m': Refc)
    requires TwoHalves(gs) && i < |gs| && j < 2 && Exact(m, gs)
    requires forall o :: o in m' ==> m'[o] > 0
    requires forall o :: Rc(m', o) == Rc(m, o) - Is(Ref(gs[i].data[j], k), o) + Is(r, o)
    ensures Exact(m', Put(gs, i, j, With(gs[i].data[j], k, r)))
  {
    var h := With(gs[i].data[j], k, r);
    forall o ensures Rc(m', o) == Refs(Put(gs, i, j, h), o) {
      WithHeld(gs[i].data[j], k, r, o);
      PutRefs(gs, i, j, h, o);
    }
  }

  lemma FlagsKeep(m: Refc, gs: seq<Bp>, i: nat, j: nat, fs: set<Flag>)
    requires TwoHalves(gs) && i < |gs| && j < 2 && Exact(m, gs)
    ensures Exact(m, Put(gs, i, j, gs[i].data[j].(flags := fs)))
  {
    var h := gs[i].data[j].(flags := fs);
    forall o ensures Rc(m, o) == Refs(Put(gs, i, j, h), o) {
      PutRefs(gs, i, j, h, o);
    }
  }

  // ----- lists and counts together

  datatype Heap = Heap(gs: seq<Bp>, refc: Refc)

  ghost predicate Good(hp: Heap) {
    TwoHalves(hp.gs) && Exact(hp.refc, hp.gs)
  }

  lemma PutAgain(gs: seq<Bp>, i: nat, j: nat, h: Half, h': Half)
    requires TwoHalves(gs) && i < |gs| && j < 2
    ensures Put(Put(gs, i, j, h), i, j, h') == Put(gs, i, j, h')
    ensures Put(gs, i, j, h)[i].data[j] == h
    ensures Put(gs, i, j, gs[i].data[j]) == gs
  {
    var g := gs[i];
    assert g.data[j := g.data[j]] == g.data;
    assert g.data[j := h][j := h'] == g.data[j := h'];
  }

  function Detach(hp: Heap, i: nat, j: nat, k: Kind): (hp': Heap)
    requires i < |hp.gs| && j < 2 && Good(hp)
    ensures Good(hp') && hp'.gs == Put(hp.gs, i, j, With(hp.gs[i].data[j], k, None))
    ensures hp'.refc.Keys <= hp.refc.Keys
  {
    var r := Ref(hp.gs[i].data[j], k);
    assert r.Some? ==> r.value in hp.refc by {
      if r.Some? {
        RefIsLive(hp.refc, hp.gs, i, j, k);
      }
    }
    var m := Unref(hp.refc, r);
    ReplaceKeeps(hp.refc, hp.gs, i, j, k, None, m);
    Heap(Put(hp.gs, i, j, With(hp.gs[i].data[j], k, None)), m)
  }

  function Attach(hp: Heap, i: nat, j: nat, k: Kind, r: Option<Obj>): (hp': Heap)
    requires i < |hp.gs| && j < 2 && Good(hp) && Ref(hp.gs[i].data[j], k).None?
    ensures Good(hp') && hp'.gs == Put(hp.gs, i, j, With(hp.gs[i].data[j], k, r))
    ensures hp'.refc.Keys == hp.refc.Keys + (if r.Some? then {r.value} else {})
  {
    var m := Addref(hp.refc, r);
    ReplaceKeeps(hp.refc, hp.gs, i, j, k, r, m);
    Heap(Put(hp.gs, i, j, With(hp.gs[i].data[j], k, r)), m)
  }

  function SetFlags(hp: Heap, i: nat, j: nat, fs: set<Flag>): (hp': Heap)
    requires i < |hp.gs| && j < 2 && Good(hp)
    ensures Good(hp') && hp'.gs == Put(hp.gs, i, j, hp.gs[i].data[j].(flags := fs))
    ensures hp'.refc == hp.refc
  {
    FlagsKeep(hp.refc, hp.gs, i, j, fs);
    Heap(Put(hp.gs, i, j, hp.gs[i].data[j].(flags := fs)), hp.refc)
  }

  // ----- setting, clearing and consolidating one half

  /** What setting a break makes of a half; o is a fresh object, used if needed. */
  function SetHalf(h: Half, b: Break, op: BreakOp, o: Obj): Half {
    match b
    case LocalTrace => h.(flags := h.flags + {Local})
    case GlobalTrace => h.(flags := h.flags + {Global})
    case DebugBreak => h.(flags := h.flags + {Debug})
    case MetaTrace => h.(meta := Some(o))
    case CallCount => CountHalf(h, Count, CountActive, op, o)
    case CallTime => CountHalf(h, Time, TimeActive, op, o)
    case CallMemory => CountHalf(h, Memory, MemoryActive, op, o)
  }

  function OnOff(fs: set<Flag>, f: Flag, op: BreakOp): set<Flag> {
    if op.Pause? then fs - {f} else fs + {f}
  }

  function KindBreak(k: Kind): Break {
    match k
    case Meta => MetaTrace
    case Count => CallCount
    case Time => CallTime
    case Memory => CallMemory
  }

  function FlagBreak(f: Flag): Break {
    match f
    case Local => LocalTrace
    case Global => GlobalTrace
    case Debug => DebugBreak
    case CountActive => CallCount
    case TimeActive => CallTime
    case MemoryActive => CallMemory
  }

  function ClearHalf(h: Half, bs: set<Break>): (h': Half)
    ensures forall k :: Ref(h', k) == if KindBreak(k) in bs then None else Ref(h, k)
  {
    Half(
      if MetaTrace in bs then None else h.meta,
      if CallCount in bs then None else h.count,
      if CallTime in bs then None else h.time,
      if CallMemory in bs then None else h.memory,
      set f | f in h.flags && FlagBreak(f) !in bs)
  }

  /** Attaches a fresh object where there may be one already. */
  function Renew(hp: Heap, i: nat, j: nat, k: Kind, o: Obj): (hp': Heap)
    requires i < |hp.gs| && j < 2 && Good(hp)
    ensures Good(hp') && hp'.gs == Put(hp.gs, i, j, With(hp.gs[i].data[j], k, Some(o)))
    ensures hp'.refc.Keys <= hp.refc.Keys + {o}
  {
    var d := Detach(hp, i, j, k);
    PutAgain(hp.gs, i, j, With(hp.gs[i].data[j], k, None), With(hp.gs[i].data[j], k, Some(o)));
    Attach(d, i, j, k, Some(o))
  }

  /** An existing counter is paused or restarted, a call counter without renewing it. */
  function CountHalf(h: Half, k: Kind, f: Flag, op: BreakOp, o: Obj): Half {
    if Ref(h, k).Some? && (op.Pause? || k.Count?) then h.(flags := OnOff(h.flags, f, op))
    else With(h, k, Some(o)).(flags := h.flags + {f})
  }

  function CountAt(hp: Heap, i: nat, j: nat, k: Kind, f: Flag, op: BreakOp, o: Obj): (hp': Heap)
    requires i < |hp.gs| && j < 2 && Good(hp)
    ensures Good(hp') && hp'.refc.Keys <= hp.refc.Keys + {o}
    ensures hp'.gs == Put(hp.gs, i, j, CountHalf(hp.gs[i].data[j], k, f, op, o))
  {
    var h := hp.gs[i].data[j];
    if Ref(h, k).Some? && (op.Pause? || k.Count?) then SetFlags(hp, i, j, OnOff(h.flags, f, op))
    else
      var n := Renew(hp, i, j, k, o);
      PutAgain(hp.gs, i, j, With(h, k, Some(o)), With(h, k, Some(o)).(flags := h.flags + {f}));
      SetFlags(n, i, j, h.flags + {f})
  }

  function SetAt(hp: Heap, i: nat, j: nat, b: Break, op: BreakOp, o: Obj): (hp': Heap)
    requires i < |hp.gs| && j < 2 && Good(hp)
    ensures Good(hp') && hp'.gs == Put(hp.gs, i, j, SetHalf(hp.gs[i].data[j], b, op, o))
    ensures hp'.refc.Keys <= hp.refc.Keys + {o}
  {
    match b
    case LocalTrace => SetFlags(hp, i, j, hp.gs[i].data[j].flags + {Local})
    case GlobalTrace => SetFlags(hp, i, j, hp.gs[i].data[j].flags + {Global})
    case DebugBreak => SetFlags(hp, i, j, hp.gs[i].data[j].flags + {Debug})
    case MetaTrace => Renew(hp, i, j, Meta, o)
    case CallCount => CountAt(hp, i, j, Count, CountActive, op, o)
    case CallTime => CountAt(hp, i, j, Time, TimeActive, op, o)
    case CallMemory => CountAt(hp, i, j, Memory, MemoryActive, op, o)
  }

  function DetachIf(hp: Heap, i: nat, j: nat, k: Kind, c: bool): (hp': Heap)
    requires i < |hp.gs| && j < 2 && Good(hp)
    ensures Good(hp') && hp'.refc.Keys <= hp.refc.Keys
    ensures hp'.gs == Put(hp.gs, i, j, if c then With(hp.gs[i].data[j], k, None) else hp.gs[i].data[j])
  {
    PutAgain(hp.gs, i, j, hp.gs[i].data[j], hp.gs[i].data[j]);
    if c then Detach(hp, i, j, k) else hp
  }

  function Without(h: Half, cut: set<Kind>): (h': Half)
  {
    Half(
      if Meta in cut then None else h.meta, if Count in cut then None else h.count,
      if Time in cut then None else h.time, if Memory in cut then None else h.memory, h.flags)
  }

  /** Drops the references of the kinds in cut. */
  function DetachAll(hp: Heap, i: nat, j: nat, cut: set<Kind>): (hp': Heap)
    requires i < |hp.gs| && j < 2 && Good(hp)
    ensures Good(hp') && hp'.refc.Keys <= hp.refc.Keys
    ensures hp'.gs == Put(hp.gs, i, j, Without(hp.gs[i].data[j], cut))
  {
    var h := hp.gs[i].data[j];
    var a := DetachIf(hp, i, j, Meta, Meta in cut);
    var b := DetachIf(a, i, j, Count, Count in cut);
    var c := DetachIf(b, i, j, Time, Time in cut);
    var d := DetachIf(c, i, j, Memory, Memory in cut);
    PutAgain(hp.gs, i, j, Without(h, cut * {Meta}), Without(h, cut * {Meta, Count}));
    PutAgain(hp.gs, i, j, Without(h, cut * {Meta, Count}), Without(h, cut * {Meta, Count, Time}));
    PutAgain(hp.gs, i, j, Without(h, cut * {Meta, Count, Time}), Without(h, cut));
    d
  }

  function ClearAt(hp: Heap, i: nat, j: nat, bs: set<Break>): (hp': Heap)
    requires i < |hp.gs| && j < 2 && Good(hp)
    ensures Good(hp') && hp'.refc.Keys <= hp.refc.Keys
    ensures hp'.gs == Put(hp.gs, i, j, ClearHalf(hp.gs[i].data[j], bs))
  {
    var h := hp.gs[i].data[j];
    var cut := set k: Kind | KindBreak(k) in bs;
    var a := DetachAll(hp, i, j, cut);
    var fs := set f | f in h.flags && FlagBreak(f) !in bs;
    PutAgain(hp.gs, i, j, Without(h, cut), Without(h, cut).(flags := fs));
    assert Without(h, cut).(flags := fs) == ClearHalf(h, bs);
    SetFlags(a, i, j, fs)
  }

  lemma ClearAtSteps(hp: Heap, i: nat, j: nat, bs: set<Break>)
    requires i < |hp.gs| && j < 2 && Good(hp)
    ensures ClearAt(hp, i, j, bs)
         == SetFlags(DetachAll(hp, i, j, set k: Kind | KindBreak(k) in bs), i, j, set f | f in hp.gs[i].data[j].flags && FlagBreak(f) !in bs)
  {
  }

  function Share(hp: Heap, i: nat, a: nat, k: Kind): (hp': Heap)
    requires i < |hp.gs| && a < 2 && Good(hp) && Ref(hp.gs[i].data[1 - a], k).None?
    ensures Good(hp') && hp'.refc.Keys == hp.refc.Keys
    ensures hp'.gs == Put(hp.gs, i, 1 - a, With(hp.gs[i].data[1 - a], k, Ref(hp.gs[i].data[a], k)))
  {
    var r := Ref(hp.gs[i].data[a], k);
    assert r.Some? ==> r.value in hp.refc by {
      if r.Some? {
        RefIsLive(hp.refc, hp.gs, i, a, k);
      }
    }
    Attach(hp, i, 1 - a, k, r)
  }

  /** The staging half becomes a copy of the active one. */
  function ConsolidateAt(hp: Heap, i: nat, a: nat): (hp': Heap)
    requires i < |hp.gs| && a < 2 && Good(hp)
    ensures Good(hp') && hp'.refc.Keys <= hp.refc.Keys
    ensures hp'.gs == Put(hp.gs, i, 1 - a, hp.gs[i].data[a])
  {
    var src := hp.gs[i].data[a];
    var d := DetachAll(hp, i, 1 - a, {Meta, Count, Time, Memory});
    var e := SetFlags(d, i, 1 - a, src.flags);
    var empty := Half(None, None, None, None, src.flags);
    PutAgain(hp.gs, i, 1 - a, Without(hp.gs[i].data[1 - a], {Meta, Count, Time, Memory}), empty);
    PutAgain(hp.gs, i, 1 - a, empty, src);
    ShareAll(e, i, a)
  }

  /** Two references are shared; h is what the staging half has. */
  function ShareTwo(hp: Heap, i: nat, a: nat, k: Kind, k': Kind): (hp': Heap)
    requires i < |hp.gs| && a < 2 && Good(hp) && k != k'
    requires Ref(hp.gs[i].data[1 - a], k).None? && Ref(hp.gs[i].data[1 - a], k').None?
    ensures Good(hp') && hp'.refc.Keys == hp.refc.Keys
    ensures var src, h := hp.gs[i].data[a], hp.gs[i].data[1 - a];
      hp'.gs == Put(hp.gs, i, 1 - a, With(With(h, k, Ref(src, k)), k', Ref(src, k')))
  {
    var src, h := hp.gs[i].data[a], hp.gs[i].data[1 - a];
    var s1 := Share(hp, i, a, k);
    PutAgain(hp.gs, i, 1 - a, With(h, k, Ref(src, k)), With(With(h, k, Ref(src, k)), k', Ref(src, k')));
    Share(s1, i, a, k')
  }

  function ShareAll(hp: Heap, i: nat, a: nat): (hp': Heap)
    requires i < |hp.gs| && a < 2 && Good(hp)
    requires hp.gs[i].data[1 - a] == Half(None, None, None, None, hp.gs[i].data[a].flags)
    ensures Good(hp') && hp'.refc.Keys == hp.refc.Keys
    ensures hp'.gs == Put(hp.gs, i, 1 - a, hp.gs[i].data[a])
  {
    var src := hp.gs[i].data[a];
    PutAgain(hp.gs, i, 1 - a, Half(src.meta, src.count, None, None, src.flags), src);
    ShareTwo(ShareTwo(hp, i, a, Meta, Count), i, a, Time, Memory)
  }

  // ----- the list after consolidation

  /** The enabled entries in order, both halves as the active one. */
  function Kept(gs: seq<Bp>, a: nat): (r: seq<Bp>)
    requires TwoHalves(gs) && a < 2
    ensures TwoHalves(r)
  {
    if gs == [] then []
    else if gs[0].data[a] == NO_FLAGS then Kept(gs[1..], a)
    else [Bp(gs[0].session, [gs[0].data[a], gs[0].data[a]])] + Kept(gs[1..], a)
  }

  /** The sessions whose entries are unlinked, in order. */
  function Unlinked(gs: seq<Bp>, a: nat): seq<Session>
    requires TwoHalves(gs) && a < 2
  {
    if gs == [] then []
    else if gs[0].data[a] == NO_FLAGS then Unlinked(gs[1..], a) + [gs[0].session]
    else Unlinked(gs[1..], a)
  }

  function Remove(gs: seq<Bp>, i: nat): seq<Bp>
    requires i < |gs|
  {
    gs[..i] + gs[i + 1..]
  }

  lemma {:induction false} RemoveRefs(gs: seq<Bp>, i: nat, o: Obj)
    requires TwoHalves(gs) && i < |gs|
    ensures Refs(gs, o) == Refs(Remove(gs, i), o) + HeldBp(gs[i], o)
  {
    if i == 0 {
      assert Remove(gs, i) == gs[1..];
    } else {
      RemoveRefs(gs[1..], i - 1, o);
      assert Remove(gs, i)[1..] == Remove(gs[1..], i - 1);
    }
  }

  /** An entry without references can be unlinked. */
  function Unlink(hp: Heap, i: nat): (hp': Heap)
    requires i < |hp.gs| && Good(hp) && hp.gs[i].data[0] == hp.gs[i].data[1] == NO_FLAGS
    ensures Good(hp') && hp'.gs == Remove(hp.gs, i) && hp'.refc == hp.refc
  {
    var hp' := Heap(Remove(hp.gs, i), hp.refc);
    assert forall o :: Rc(hp.refc, o) == Refs(hp'.gs, o) by {
      forall o ensures Rc(hp.refc, o) == Refs(hp'.gs, o) {
        RemoveRefs(hp.gs, i, o);
      }
    }
    hp'
  }

  function Copied(g: Bp, a: nat): (g': Bp)
    requires |g.data| == 2 && a < 2
    ensures |g'.data| == 2
  {
    Bp(g.session, [g.data[a], g.data[a]])
  }

  lemma CopiedPut(gs: seq<Bp>, i: nat, a: nat)
    requires TwoHalves(gs) && i < |gs| && a < 2
    ensures Put(gs, i, 1 - a, gs[i].data[a]) == gs[i := Copied(gs[i], a)]
    ensures Remove(gs[i := Copied(gs[i], a)], i) == Remove(gs, i)
  {
    assert gs[i].data[1 - a := gs[i].data[a]] == Copied(gs[i], a).data;
  }

  /** Consolidates entry i, and unlinks it if it is disabled. */
  function ConsolidateOne(hp: Heap, i: nat, a: nat): (hp': Heap)
    requires i < |hp.gs| && a < 2 && Good(hp)
    ensures Good(hp') && hp'.refc.Keys <= hp.refc.Keys
    ensures hp'.gs == if hp.gs[i].data[a] == NO_FLAGS then Remove(hp.gs, i) else hp.gs[i := Copied(hp.gs[i], a)]
  {
    var c := ConsolidateAt(hp, i, a);
    CopiedPut(hp.gs, i, a);
    if hp.gs[i].data[a] == NO_FLAGS then Unlink(c, i) else c
  }

  lemma KeptOne(gs: seq<Bp>, i: nat, a: nat)
    requires TwoHalves(gs) && i < |gs| && a < 2
    ensures gs[i].data[a] == NO_FLAGS ==> (
      && gs[..i] + Kept(gs[i..], a) == Remove(gs, i)[..i] + Kept(Remove(gs, i)[i..], a)
      && Unlinked(gs[i..], a) == Unlinked(Remove(gs, i)[i..], a) + [gs[i].session])
    ensures gs[i].data[a] != NO_FLAGS ==> (
      var gs' := gs[i := Copied(gs[i], a)];
      && gs[..i] + Kept(gs[i..], a) == gs'[..i + 1] + Kept(gs'[i + 1..], a)
      && Unlinked(gs[i..], a) == Unlinked(gs'[i + 1..], a))
  {
    assert gs[i..][1..] == gs[i + 1..];
    if gs[i].data[a] == NO_FLAGS {
      assert Remove(gs, i)[i..] == gs[i + 1..] && Remove(gs, i)[..i] == gs[..i];
    } else {
      var gs' := gs[i := Copied(gs[i], a)];
      assert gs'[i + 1..] == gs[i + 1..];
      assert gs'[..i + 1] == gs[..i] + [Copied(gs[i], a)];
    }
  }

  /** Consolidates the entries from i on. */
  function ConsolidateFrom(hp: Heap, i: nat, a: nat): (hp': Heap)
    requires i <= |hp.gs| && a < 2 && Good(hp)
    ensures Good(hp') && hp'.refc.Keys <= hp.refc.Keys
    decreases |hp.gs| - i
  {
    if i == |hp.gs| then hp
    else
      var c := ConsolidateOne(hp, i, a);
      if hp.gs[i].data[a] == NO_FLAGS then ConsolidateFrom(c, i, a) else ConsolidateFrom(c, i + 1, a)
  }

  lemma ConsolidateIs(hp: Heap, i: nat, a: nat, hp': Heap)
    requires i < |hp.gs| && a < 2 && Good(hp) && Good(hp') && hp'.gs == Put(hp.gs, i, 1 - a, hp.gs[i].data[a])
    ensures ConsolidateAt(hp, i, a) == hp'
  {
    CountsFollow(ConsolidateAt(hp, i, a).refc, hp'.refc, hp'.gs);
  }

  lemma UnlinkedStep(hp: Heap, freed: seq<Session>, i: nat, a: nat)
    requires i < |hp.gs| && a < 2 && Good(hp)
    ensures var gs' := ConsolidateOne(hp, i, a).gs;
      if hp.gs[i].data[a] == NO_FLAGS then
        Unlinked(gs'[i..], a) + ([hp.gs[i].session] + freed) == Unlinked(hp.gs[i..], a) + freed
      else Unlinked(gs'[i + 1..], a) + freed == Unlinked(hp.gs[i..], a) + freed
  {
    KeptOne(hp.gs, i, a);
    var rest, x := Unlinked(Remove(hp.gs, i)[i..], a), [hp.gs[i].session];
    assert rest + (x + freed) == rest + x + freed;
  }

  lemma {:induction false} ConsolidateMeaning(hp: Heap, i: nat, a: nat)
    requires i <= |hp.gs| && a < 2 && Good(hp)
    ensures ConsolidateFrom(hp, i, a).gs == hp.gs[..i] + Kept(hp.gs[i..], a)
    decreases |hp.gs| - i
  {
    if i < |hp.gs| {
      KeptOne(hp.gs, i, a);
      var c := ConsolidateOne(hp, i, a);
      if hp.gs[i].data[a] == NO_FLAGS {
        ConsolidateMeaning(c, i, a);
      } else {
        ConsolidateMeaning(c, i + 1, a);
      }
    }
  }

  // ----- requests to the breakpoint

  /** Where a request is; the stages follow one another with a code barrier between
      them: install, commit, consolidate, or commit, uninstall, consolidate. */
  datatype Phase = Idle | Staging(session: Session, on: bool) | Installed | CommittedOn | CommittedOff | Uninstalled

  datatype State = State(
    hp: Heap,                     // the linked list, with to_insert in front
    pending: bool,                // the first entry is to_insert, which is not linked yet
    active: nat,
    nextObj: Obj,
    installed: bool,              // the breakpoint instruction is in the code
    freed: seq<Session>,          // unlinked entries, latest first
    phase: Phase)

  datatype Event = Begin(session: Session, on: bool) | SetBreak(b: Break, op: BreakOp)
    | Clear(breaks: set<Break>) | ClearAll | Stage

  const ALL_BREAKS := {LocalTrace, GlobalTrace, DebugBreak, MetaTrace, CallCount, CallTime, CallMemory}

  function Find(gs: seq<Bp>, s: Session): (i: nat)
    ensures i <= |gs| && (i < |gs| ==> gs[i].session == s) && (forall j :: 0 <= j < i ==> gs[j].session != s)
  {
    if gs == [] || gs[0].session == s then 0 else 1 + Find(gs[1..], s)
  }

  /** What the schedulers traverse. */
  function Linked(st: State): seq<Bp> {
    if st.pending && st.hp.gs != [] then st.hp.gs[1..] else st.hp.gs
  }

  function Blank(s: Session): Bp {
    Bp(s, [NO_FLAGS, NO_FLAGS])
  }

  /** A new entry for s, in front of the others. */
  function AddEntry(hp: Heap, s: Session): (hp': Heap)
    requires Good(hp)
    ensures Good(hp') && hp'.gs == [Blank(s)] + hp.gs && hp'.refc == hp.refc
  {
    var hp' := Heap([Blank(s)] + hp.gs, hp.refc);
    assert hp'.gs[1..] == hp.gs;
    hp'
  }

  /** Sets the break in entry i. */
  function SetFound(st: State, i: nat, b: Break, op: BreakOp): (st': State)
    requires Good(st.hp) && st.active < 2 && i < |st.hp.gs|
    ensures Good(st'.hp) && st'.hp.gs == Put(st.hp.gs, i, 1 - st.active, SetHalf(st.hp.gs[i].data[1 - st.active], b, op, st.nextObj))
    ensures st'.hp.refc.Keys <= st.hp.refc.Keys + {st.nextObj} && st' == st.(hp := st'.hp, nextObj := st.nextObj + 1)
  {
    st.(hp := SetAt(st.hp, i, 1 - st.active, b, op, st.nextObj), nextObj := st.nextObj + 1)
  }

  lemma SetFoundIs(st: State, i: nat, b: Break, op: BreakOp, hp: Heap)
    requires Good(st.hp) && st.active < 2 && i < |st.hp.gs| && Good(hp)
    requires hp.gs == Put(st.hp.gs, i, 1 - st.active, SetHalf(st.hp.gs[i].data[1 - st.active], b, op, st.nextObj))
    ensures SetFound(st, i, b, op) == st.(hp := hp, nextObj := st.nextObj + 1)
  {
    CountsFollow(SetFound(st, i, b, op).hp.refc, hp.refc, hp.gs);
  }

  /** Adds an entry for s with nothing set; it is linked at once only if it is the first. */
  function AddNew(st: State, s: Session): (st': State)
    requires Good(st.hp)
    ensures Good(st'.hp) && st'.hp.gs == [Blank(s)] + st.hp.gs && st'.hp.refc == st.hp.refc
    ensures st' == st.(hp := st'.hp, pending := st.hp.gs != [])
  {
    st.(hp := AddEntry(st.hp, s), pending := st.hp.gs != [])
  }

  function DoSet(st: State, s: Session, b: Break, op: BreakOp): State
    requires Good(st.hp) && st.active < 2
  {
    var i := Find(st.hp.gs, s);
    if i < |st.hp.gs| then SetFound(st, i, b, op)
    else if op.Restart? || op.Pause? then st
    else SetFound(AddNew(st, s), 0, b, op)
  }

  function DoClear(st: State, s: Session, bs: set<Break>): State
    requires Good(st.hp) && st.active < 2
  {
    var i := Find(st.hp.gs, s);
    if i < |st.hp.gs| then st.(hp := ClearAt(st.hp, i, 1 - st.active, bs)) else st
  }

  /** The entries from i on without their half j. */
  function WithoutHalves(gs: seq<Bp>, i: nat, j: nat): (r: seq<Bp>)
    requires TwoHalves(gs) && j < 2 && i <= |gs|
    ensures TwoHalves(r) && |r| == |gs|
    decreases |gs| - i
  {
    if i == |gs| then gs else WithoutHalves(Put(gs, i, j, NO_FLAGS), i + 1, j)
  }

  lemma ClearAllOf(h: Half)
    ensures ClearHalf(h, ALL_BREAKS) == NO_FLAGS
  {
  }

  function ClearFrom(hp: Heap, i: nat, j: nat): (hp': Heap)
    requires Good(hp) && j < 2 && i <= |hp.gs|
    ensures Good(hp') && hp'.refc.Keys <= hp.refc.Keys && hp'.gs == WithoutHalves(hp.gs, i, j)
    decreases |hp.gs| - i
  {
    if i == |hp.gs| then hp
    else
      ClearAllOf(hp.gs[i].data[j]);
      ClearFrom(ClearAt(hp, i, j, ALL_BREAKS), i + 1, j)
  }

  /** The first i entries have lost their half j, and nothing else has changed. */
  predicate Cleared(gs: seq<Bp>, gs': seq<Bp>, j: nat, i: nat)
    requires j < 2
  {
    && |gs'| == |gs| && TwoHalves(gs) && TwoHalves(gs')
    && (forall n :: 0 <= n < |gs| ==> gs'[n].session == gs[n].session && gs'[n].data[1 - j] == gs[n].data[1 - j])
    && (forall n :: 0 <= n < |gs| ==> gs'[n].data[j] == if n < i then NO_FLAGS else gs[n].data[j])
  }

  /** The list determines the counts. */
  lemma CountsFollow(m: Refc, m': Refc, gs: seq<Bp>)
    requires TwoHalves(gs) && Exact(m, gs) && Exact(m', gs)
    ensures m == m'
  {
    forall o ensures (o in m <==> o in m') && (o in m ==> m[o] == m'[o]) {
      assert Rc(m, o) == Rc(m', o);
    }
  }

  lemma {:induction false} ClearFromMeaning(gs: seq<Bp>, i: nat, j: nat, n: nat)
    requires TwoHalves(gs) && j < 2 && i <= |gs| && n < |gs|
    ensures var g := WithoutHalves(gs, i, j)[n];
      && g.session == gs[n].session && g.data[1 - j] == gs[n].data[1 - j]
      && g.data[j] == if i <= n then NO_FLAGS else gs[n].data[j]
    decreases |gs| - i
  {
    if i < |gs| {
      ClearFromMeaning(Put(gs, i, j, NO_FLAGS), i + 1, j, n);
    }
  }

  function DoInstall(st: State): State {
    if st.hp.gs == [] then st else st.(installed := true, pending := false)
  }

  function DoCommit(st: State): State
    requires st.active < 2
  {
    st.(active := 1 - st.active)
  }

  predicate AllOff(gs: seq<Bp>, ix: nat)
    requires TwoHalves(gs) && ix < 2
  {
    forall i :: 0 <= i < |gs| ==> gs[i].data[ix] == NO_FLAGS
  }

  predicate AllOn(gs: seq<Bp>, ix: nat)
    requires TwoHalves(gs) && ix < 2
  {
    forall i :: 0 <= i < |gs| ==> gs[i].data[ix] != NO_FLAGS
  }

  function DoUninstall(st: State): State
    requires TwoHalves(st.hp.gs) && st.active < 2
  {
    if st.installed && AllOff(Linked(st), st.active) then st.(installed := false) else st
  }

  function DoConsolidate(st: State): State
    requires Good(st.hp) && st.active < 2
  {
    st.(hp := ConsolidateFrom(st.hp, 0, st.active), freed := Unlinked(st.hp.gs, st.active) + st.freed)
  }

  predicate Enabled(st: State, e: Event) {
    match e
    case Begin(_, _) => st.phase.Idle?
    case SetBreak(_, _) => st.phase.Staging? && st.phase.on
    case Clear(_) => st.phase.Staging? && !st.phase.on
    case ClearAll => st.phase.Staging? && !st.phase.on
    case Stage => !st.phase.Idle?
  }

  function Next(st: State, e: Event): State
    requires Good(st.hp) && st.active < 2 && Enabled(st, e)
  {
    match e
    case Begin(s, on) => st.(phase := Staging(s, on))
    case SetBreak(b, op) => DoSet(st, st.phase.session, b, op)
    case Clear(bs) => DoClear(st, st.phase.session, bs)
    case ClearAll => st.(hp := ClearFrom(st.hp, 0, 1 - st.active))
    case Stage => NextStage(st)
  }

  function NextStage(st: State): State
    requires Good(st.hp) && st.active < 2 && !st.phase.Idle?
  {
    match st.phase
    case Staging(_, true) => DoInstall(st).(phase := Installed)
    case Staging(_, false) => DoCommit(st).(phase := CommittedOff)
    case Installed => DoCommit(st).(phase := CommittedOn)
    case CommittedOff => DoUninstall(st).(phase := Uninstalled)
    case CommittedOn => DoConsolidate(st).(phase := Idle)
    case Uninstalled => DoConsolidate(st).(phase := Idle)
  }

  // ----- the invariant

  predicate OneEach(gs: seq<Bp>) {
    forall i, j :: 0 <= i < j < |gs| ==> gs[i].session != gs[j].session
  }

  predicate Agree(gs: seq<Bp>)
    requires TwoHalves(gs)
  {
    forall i :: 0 <= i < |gs| ==> gs[i].data[0] == gs[i].data[1]
  }

  predicate PhaseInv(st: State)
    requires TwoHalves(st.hp.gs) && st.active < 2
  {
    var gs, a := st.hp.gs, st.active;
    match st.phase
    case Idle => !st.pending && AllOn(gs, a) && Agree(gs) && (st.installed <==> gs != [])
    case Staging(s, true) =>
      && AllOn(gs, 1 - a)
      && (st.installed ==> Linked(st) != [])
      && (!st.installed ==> AllOff(gs, a) && !st.pending && (gs == [] || (|gs| == 1 && gs[0].session == s)))
      && (st.pending ==> gs != [] && gs[0].session == s && gs[0].data[a] == NO_FLAGS)
    case Staging(s, false) => !st.pending && AllOn(gs, a) && (st.installed <==> gs != [])
    case Installed => !st.pending && AllOn(gs, 1 - a) && (st.installed <==> gs != [])
    case CommittedOn => !st.pending && AllOn(gs, a) && (st.installed <==> gs != [])
    case CommittedOff => !st.pending && (st.installed <==> gs != [])
    case Uninstalled => !st.pending && (st.installed <==> !AllOff(gs, a))
  }

  ghost predicate Inv(st: State) {
    && st.active < 2 && Good(st.hp) && OneEach(st.hp.gs)
    && (forall o :: o in st.hp.refc ==> o < st.nextObj)
    && PhaseInv(st)
  }

  lemma SetEnables(h: Half, b: Break, op: BreakOp, o: Obj)
    ensures SetHalf(h, b, op, o) != NO_FLAGS
  {
    assert b.LocalTrace? ==> Local in SetHalf(h, b, op, o).flags;
    assert b.GlobalTrace? ==> Global in SetHalf(h, b, op, o).flags;
    assert b.DebugBreak? ==> Debug in SetHalf(h, b, op, o).flags;
  }

  /** A second entry never waits to be linked. */
  lemma PendingOnce(st: State)
    requires Inv(st) && st.phase.Staging? && st.phase.on
    ensures Find(st.hp.gs, st.phase.session) == |st.hp.gs| ==> !st.pending
  {
  }

  lemma SetFoundPhase(st: State, i: nat, h: Half, st': State)
    requires st.active < 2 && TwoHalves(st.hp.gs) && OneEach(st.hp.gs) && PhaseInv(st) && h != NO_FLAGS
    requires st.phase.Staging? && st.phase.on && i < |st.hp.gs|
    requires st'.hp.gs == Put(st.hp.gs, i, 1 - st.active, h)
    requires st' == st.(hp := st'.hp, nextObj := st.nextObj + 1)
    ensures PhaseInv(st') && OneEach(st'.hp.gs)
  {
  }

  lemma SetFoundKeeps(st: State, b: Break, op: BreakOp)
    requires Inv(st) && st.phase.Staging? && st.phase.on
    requires Find(st.hp.gs, st.phase.session) < |st.hp.gs|
    ensures Inv(DoSet(st, st.phase.session, b, op))
  {
    var i := Find(st.hp.gs, st.phase.session);
    SetEnables(st.hp.gs[i].data[1 - st.active], b, op, st.nextObj);
    SetFoundPhase(st, i, SetHalf(st.hp.gs[i].data[1 - st.active], b, op, st.nextObj), DoSet(st, st.phase.session, b, op));
  }

  lemma NewEntry(gs: seq<Bp>, s: Session, a: nat, h: Half)
    requires TwoHalves(gs) && a < 2 && OneEach(gs) && AllOn(gs, 1 - a) && Find(gs, s) == |gs| && h != NO_FLAGS
    ensures var gs' := Put([Blank(s)] + gs, 0, 1 - a, h);
      AllOn(gs', 1 - a) && OneEach(gs') && gs'[1..] == gs && gs'[0].session == s && gs'[0].data[a] == NO_FLAGS
  {
  }

  lemma SetNewPhase(st: State, h: Half, st': State)
    requires st.active < 2 && TwoHalves(st.hp.gs) && OneEach(st.hp.gs) && PhaseInv(st) && h != NO_FLAGS
    requires st.phase.Staging? && st.phase.on && !st.pending
    requires Find(st.hp.gs, st.phase.session) == |st.hp.gs|
    requires st'.hp.gs == Put([Blank(st.phase.session)] + st.hp.gs, 0, 1 - st.active, h)
    requires st' == st.(hp := st'.hp, nextObj := st.nextObj + 1, pending := st.hp.gs != [])
    ensures PhaseInv(st') && OneEach(st'.hp.gs)
  {
    NewEntry(st.hp.gs, st.phase.session, st.active, h);
  }

  lemma SetNewGives(st: State, b: Break, op: BreakOp) returns (st': State)
    requires Good(st.hp) && st.active < 2 && st.phase.Staging?
    requires Find(st.hp.gs, st.phase.session) == |st.hp.gs| && (op.Nop? || op.Set?)
    ensures st' == DoSet(st, st.phase.session, b, op) && Good(st'.hp)
    ensures st' == st.(hp := st'.hp, nextObj := st.nextObj + 1, pending := st.hp.gs != [])
    ensures st'.hp.gs == Put([Blank(st.phase.session)] + st.hp.gs, 0, 1 - st.active, SetHalf(NO_FLAGS, b, op, st.nextObj))
    ensures st'.hp.refc.Keys <= st.hp.refc.Keys + {st.nextObj}
  {
    var added := AddNew(st, st.phase.session);
    assert added.hp.gs[0] == Blank(st.phase.session);
    st' := SetFound(added, 0, b, op);
  }

  lemma SetNewKeeps(st: State, b: Break, op: BreakOp)
    requires Inv(st) && st.phase.Staging? && st.phase.on
    requires Find(st.hp.gs, st.phase.session) == |st.hp.gs| && (op.Nop? || op.Set?)
    ensures Inv(DoSet(st, st.phase.session, b, op))
  {
    PendingOnce(st);
    SetEnables(NO_FLAGS, b, op, st.nextObj);
    var st' := SetNewGives(st, b, op);
    SetNewPhase(st, SetHalf(NO_FLAGS, b, op, st.nextObj), st');
  }

  lemma ClearKeeps(st: State, bs: set<Break>)
    requires Inv(st) && st.phase.Staging? && !st.phase.on
    ensures Inv(Next(st, Clear(bs)))
  {
  }

  lemma ClearedAll(gs: seq<Bp>, j: nat)
    requires TwoHalves(gs) && j < 2
    ensures Cleared(gs, WithoutHalves(gs, 0, j), j, |gs|)
  {
    var gs' := WithoutHalves(gs, 0, j);
    forall n | 0 <= n < |gs|
      ensures gs'[n].session == gs[n].session && gs'[n].data[1 - j] == gs[n].data[1 - j] && gs'[n].data[j] == NO_FLAGS
    {
      ClearFromMeaning(gs, 0, j, n);
    }
  }

  lemma ClearedPhase(st: State, st': State)
    requires st.active < 2 && TwoHalves(st.hp.gs) && OneEach(st.hp.gs) && PhaseInv(st) && st.phase.Staging? && !st.phase.on
    requires st' == st.(hp := st'.hp) && Cleared(st.hp.gs, st'.hp.gs, 1 - st.active, |st.hp.gs|)
    ensures PhaseInv(st') && OneEach(st'.hp.gs)
  {
  }

  lemma ClearAllKeeps(st: State)
    requires Inv(st) && st.phase.Staging? && !st.phase.on
    ensures Inv(Next(st, ClearAll))
    ensures Cleared(st.hp.gs, Next(st, ClearAll).hp.gs, 1 - st.active, |st.hp.gs|)
  {
    ClearedAll(st.hp.gs, 1 - st.active);
    ClearedPhase(st, Next(st, ClearAll));
  }

  lemma {:induction false} KeptIsOn(gs: seq<Bp>, a: nat)
    requires TwoHalves(gs) && a < 2
    ensures AllOn(Kept(gs, a), 0) && AllOn(Kept(gs, a), 1) && Agree(Kept(gs, a))
  {
    if gs != [] {
      KeptIsOn(gs[1..], a);
    }
  }

  lemma {:induction false} KeptNone(gs: seq<Bp>, a: nat)
    requires TwoHalves(gs) && a < 2
    ensures Kept(gs, a) == [] <==> AllOff(gs, a)
  {
    if gs != [] {
      KeptNone(gs[1..], a);
    }
  }

  lemma {:induction false} KeptFrom(gs: seq<Bp>, a: nat, j: nat) returns (i: nat)
    requires TwoHalves(gs) && a < 2 && j < |Kept(gs, a)|
    ensures i < |gs| && gs[i].session == Kept(gs, a)[j].session
  {
    if gs[0].data[a] == NO_FLAGS {
      i := KeptFrom(gs[1..], a, j);
      i := i + 1;
    } else if j == 0 {
      i := 0;
    } else {
      i := KeptFrom(gs[1..], a, j - 1);
      i := i + 1;
    }
  }

  lemma {:induction false} KeptOneEach(gs: seq<Bp>, a: nat)
    requires TwoHalves(gs) && a < 2 && OneEach(gs)
    ensures OneEach(Kept(gs, a))
  {
    if gs != [] {
      KeptOneEach(gs[1..], a);
      forall j | 0 <= j < |Kept(gs[1..], a)| ensures Kept(gs[1..], a)[j].session != gs[0].session {
        var i := KeptFrom(gs[1..], a, j);
      }
    }
  }

  lemma ConsolidateGives(st: State)
    requires Good(st.hp) && st.active < 2
    ensures DoConsolidate(st).hp.gs == Kept(st.hp.gs, st.active)
  {
    ConsolidateMeaning(st.hp, 0, st.active);
    assert st.hp.gs[0..] == st.hp.gs && st.hp.gs[..0] == [];
  }

  lemma KeptStable(gs: seq<Bp>, a: nat)
    requires TwoHalves(gs) && a < 2 && OneEach(gs)
    ensures var ks := Kept(gs, a); AllOn(ks, a) && Agree(ks) && OneEach(ks) && (ks == [] <==> AllOff(gs, a))
  {
    KeptIsOn(gs, a);
    KeptNone(gs, a);
    KeptOneEach(gs, a);
  }

  lemma ConsolidatedPhase(st: State, st': State)
    requires st.active < 2 && TwoHalves(st.hp.gs) && OneEach(st.hp.gs) && PhaseInv(st)
    requires st.phase.CommittedOn? || st.phase.Uninstalled?
    requires st' == st.(hp := st'.hp, freed := st'.freed, phase := Idle) && st'.hp.gs == Kept(st.hp.gs, st.active)
    ensures PhaseInv(st') && OneEach(st'.hp.gs)
  {
    KeptStable(st.hp.gs, st.active);
    assert st.phase.CommittedOn? && st.hp.gs != [] ==> st.hp.gs[0].data[st.active] != NO_FLAGS;
  }

  lemma ConsolidateKeeps(st: State)
    requires Inv(st) && (st.phase.CommittedOn? || st.phase.Uninstalled?)
    ensures Inv(Next(st, Stage))
    ensures Next(st, Stage).hp.gs == Kept(st.hp.gs, st.active)
  {
    ConsolidateGives(st);
    ConsolidatedPhase(st, Next(st, Stage));
  }

  lemma StageKeeps(st: State)
    requires Inv(st) && !st.phase.Idle? && !st.phase.CommittedOn? && !st.phase.Uninstalled?
    ensures Inv(Next(st, Stage))
  {
  }

  lemma StepKeepsInv(st: State, e: Event)
    requires Inv(st) && Enabled(st, e)
    ensures Inv(Next(st, e))
  {
    match e
    case Begin(s, on) =>
    case SetBreak(b, op) =>
      if Find(st.hp.gs, st.phase.session) < |st.hp.gs| {
        SetFoundKeeps(st, b, op);
      } else if op.Nop? || op.Set? {
        SetNewKeeps(st, b, op);
      }
    case Clear(bs) => ClearKeeps(st, bs);
    case ClearAll => ClearAllKeeps(st);
    case Stage =>
      if st.phase.CommittedOn? || st.phase.Uninstalled? {
        ConsolidateKeeps(st);
      } else {
        StageKeeps(st);
      }
  }

  // ----- what the schedulers see

  /** The enabled sessions in order, with what they ask for. */
  function View(gs: seq<Bp>, ix: nat): seq<(Session, Half)>
    requires TwoHalves(gs) && ix < 2
  {
    if gs == [] then []
    else if gs[0].data[ix] == NO_FLAGS then View(gs[1..], ix)
    else [(gs[0].session, gs[0].data[ix])] + View(gs[1..], ix)
  }

  /** What a call of the function finds. */
  function Seen(st: State): seq<(Session, Half)>
    requires TwoHalves(st.hp.gs) && st.active < 2
  {
    if st.installed then View(Linked(st), st.active) else []
  }

  lemma {:induction false} SameView(gs: seq<Bp>, gs': seq<Bp>, ix: nat)
    requires TwoHalves(gs) && TwoHalves(gs') && ix < 2 && |gs| == |gs'|
    requires forall i :: 0 <= i < |gs| ==> gs[i].session == gs'[i].session && gs[i].data[ix] == gs'[i].data[ix]
    ensures View(gs, ix) == View(gs', ix)
  {
    if gs != [] {
      SameView(gs[1..], gs'[1..], ix);
    }
  }

  lemma {:induction false} OffView(gs: seq<Bp>, ix: nat)
    requires TwoHalves(gs) && ix < 2
    ensures View(gs, ix) == [] <==> AllOff(gs, ix)
  {
    if gs != [] {
      OffView(gs[1..], ix);
    }
  }

  lemma {:induction false} KeptView(gs: seq<Bp>, a: nat)
    requires TwoHalves(gs) && a < 2
    ensures View(Kept(gs, a), a) == View(gs, a)
  {
    if gs != [] {
      KeptView(gs[1..], a);
      if gs[0].data[a] != NO_FLAGS {
        assert Kept(gs, a)[1..] == Kept(gs[1..], a);
      }
    }
  }

  /** A change of staging halves is not seen. */
  lemma SameSeen(st: State, st': State)
    requires TwoHalves(st.hp.gs) && TwoHalves(st'.hp.gs) && |st'.hp.gs| == |st.hp.gs|
    requires st'.active == st.active < 2 && st'.installed == st.installed && st'.pending == st.pending
    requires forall n :: 0 <= n < |st.hp.gs| ==> st'.hp.gs[n].session == st.hp.gs[n].session
    requires forall n :: 0 <= n < |st.hp.gs| ==> st'.hp.gs[n].data[st.active] == st.hp.gs[n].data[st.active]
    ensures Seen(st') == Seen(st)
  {
    SameView(Linked(st), Linked(st'), st.active);
  }

  /** Nor is a new entry that is not linked, or not installed. */
  lemma NewUnseen(st: State, s: Session)
    requires Good(st.hp) && st.active < 2 && !st.pending && (st.hp.gs == [] ==> !st.installed)
    ensures Seen(AddNew(st, s)) == Seen(st)
  {
    assert ([Blank(s)] + st.hp.gs)[1..] == st.hp.gs;
  }

  lemma SetFoundUnseen(st: State, i: nat, b: Break, op: BreakOp)
    requires Good(st.hp) && st.active < 2 && i < |st.hp.gs|
    ensures Seen(SetFound(st, i, b, op)) == Seen(st)
  {
    SameSeen(st, SetFound(st, i, b, op));
  }

  lemma SetUnseen(st: State, b: Break, op: BreakOp)
    requires Inv(st) && st.phase.Staging? && st.phase.on
    ensures TwoHalves(DoSet(st, st.phase.session, b, op).hp.gs) && DoSet(st, st.phase.session, b, op).active < 2
    ensures Seen(DoSet(st, st.phase.session, b, op)) == Seen(st)
  {
    var i := Find(st.hp.gs, st.phase.session);
    if i < |st.hp.gs| {
      SetFoundUnseen(st, i, b, op);
    } else if op.Nop? || op.Set? {
      PendingOnce(st);
      NewUnseen(st, st.phase.session);
      SetFoundUnseen(AddNew(st, st.phase.session), 0, b, op);
    }
  }

  lemma ClearUnseen(st: State, e: Event)
    requires Inv(st) && Enabled(st, e) && (e.Clear? || e.ClearAll?)
    ensures TwoHalves(Next(st, e).hp.gs) && Next(st, e).active < 2 && Seen(Next(st, e)) == Seen(st)
  {
    var gs' := Next(st, e).hp.gs;
    if e.ClearAll? {
      forall n | 0 <= n < |st.hp.gs|
        ensures gs'[n].session == st.hp.gs[n].session && gs'[n].data[st.active] == st.hp.gs[n].data[st.active]
      {
        ClearFromMeaning(st.hp.gs, 0, 1 - st.active, n);
      }
    }
    SameSeen(st, Next(st, e));
  }

  predicate IsCommit(st: State, e: Event) {
    e.Stage? && (st.phase.Installed? || (st.phase.Staging? && !st.phase.on))
  }

  lemma StageUnseen(st: State)
    requires Inv(st) && !st.phase.Idle? && !IsCommit(st, Stage)
    ensures Inv(Next(st, Stage)) && Seen(Next(st, Stage)) == Seen(st)
  {
    StepKeepsInv(st, Stage);
    var st' := Next(st, Stage);
    match st.phase
    case Staging(s, on) =>
      if st.hp.gs != [] && !st.installed {
        OffView(Linked(st'), st.active);
      }
    case CommittedOff => OffView(Linked(st), st.active);
    case CommittedOn =>
      ConsolidateKeeps(st);
      KeptView(st.hp.gs, st.active);
    case Uninstalled =>
      ConsolidateKeeps(st);
      KeptView(st.hp.gs, st.active);
      OffView(st.hp.gs, st.active);
  }

  /** A call sees the old breakpoint until the commit and from then on exactly the
      staged one; no other step is visible to it. */
  lemma SeenChangesAtCommit(st: State, e: Event)
    requires Inv(st) && Enabled(st, e)
    ensures Inv(Next(st, e))
    ensures Seen(Next(st, e)) == if IsCommit(st, e) then View(st.hp.gs, 1 - st.active) else Seen(st)
  {
    StepKeepsInv(st, e);
    match e
    case Begin(_, _) =>
    case SetBreak(b, op) => SetUnseen(st, b, op);
    case Clear(_) => ClearUnseen(st, e);
    case ClearAll => ClearUnseen(st, e);
    case Stage => if !IsCommit(st, e) { StageUnseen(st); }
  }

  /** The stages up to the consolidation. */
  lemma StagesSeen(st: State)
    requires Inv(st) && st.phase.Staging?
    ensures Inv(Next(st, Stage)) && Inv(Next(Next(st, Stage), Stage))
    ensures var st2 := Next(Next(st, Stage), Stage);
      && (st2.phase.CommittedOn? || st2.phase.Uninstalled?) && st2.active == 1 - st.active
      && st2.hp == st.hp && Seen(st2) == View(st.hp.gs, 1 - st.active)
  {
    SeenChangesAtCommit(st, Stage);
    SeenChangesAtCommit(Next(st, Stage), Stage);
  }

  lemma LastStage(st: State)
    requires Inv(st) && (st.phase.CommittedOn? || st.phase.Uninstalled?)
    ensures var st' := Next(st, Stage);
      && Inv(st') && st'.phase.Idle? && st'.active == st.active
      && st'.hp.gs == Kept(st.hp.gs, st.active) && Seen(st') == Seen(st)
  {
    StageUnseen(st);
    ConsolidateKeeps(st);
  }

  /** A request that has staged its changes: after its three stages the list holds
      exactly the enabled entries in order, both halves agree, and calls see what
      was staged. */
  lemma RequestTakesEffect(st: State)
    requires Inv(st) && st.phase.Staging?
    ensures Inv(Next(st, Stage)) && Inv(Next(Next(st, Stage), Stage))
    ensures var st' := Next(Next(Next(st, Stage), Stage), Stage);
      && Inv(st') && st'.phase.Idle? && st'.active == 1 - st.active
      && st'.hp.gs == Kept(st.hp.gs, 1 - st.active)
      && Seen(st') == View(st.hp.gs, 1 - st.active)
  {
    StagesSeen(st);
    LastStage(Next(Next(st, Stage), Stage));
  }

  const NONE := State(Heap([], map[]), false, 0, 0, false, [], Idle)

  ghost predicate IsRun(st: State, es: seq<Event>, st': State)
    decreases |es|
  {
    if es == [] then st' == st
    else Good(st.hp) && st.active < 2 && Enabled(st, es[0]) && IsRun(Next(st, es[0]), es[1..], st')
  }

  lemma {:induction false} RunKeepsInv(st: State, es: seq<Event>, st': State)
    requires Inv(st) && IsRun(st, es, st')
    ensures Inv(st')
    decreases |es|
  {
    if es != [] {
      StepKeepsInv(st, es[0]);
      RunKeepsInv(Next(st, es[0]), es[1..], st');
    }
  }

  /** In every run an object is live exactly while some half refers to it, and the
      last request to leave takes everything with it. */
  lemma NothingLeaks(es: seq<Event>, st: State)
    requires IsRun(NONE, es, st)
    ensures Good(st.hp) && forall o :: o in st.hp.refc <==> Refs(st.hp.gs, o) > 0
    ensures st.hp.gs == [] ==> st.hp.refc == map[]
  {
    RunKeepsInv(NONE, es, st);
    forall o ensures o in st.hp.refc <==> Refs(st.hp.gs, o) > 0 {
      assert Rc(st.hp.refc, o) == Refs(st.hp.gs, o);
    }
  }

  // ----- the operations in place

  class FunctionBreakpoint {
    var gs: seq<Bp>
    var refc: Refc
    var pending: bool
    var active: nat
    var nextObj: Obj
    var installed: bool
    var freed: seq<Session>

    ghost function Hp(): Heap
      reads this`gs, this`refc
    {
      Heap(gs, refc)
    }

    ghost function Now(): State
      reads this
    {
      State(Heap(gs, refc), pending, active, nextObj, installed, freed, Idle)
    }

    constructor ()
      ensures Now() == NONE
    {
      gs, refc, pending, active, nextObj, installed, freed := [], map[], false, 0, 0, false, [];
    }

    method Drop(i: nat, j: nat, k: Kind)
      requires Good(Hp()) && i < |gs| && j < 2
      modifies this`gs, this`refc
      ensures Good(old(Hp())) && Hp() == Detach(old(Hp()), i, j, k)
    {
      var r := Ref(gs[i].data[j], k);
      if r.Some? {
        RefIsLive(refc, gs, i, j, k);
        var n := refc[r.value] - 1;
        if n <= 0 {
          refc := refc - {r.value};
        } else {
          refc := refc[r.value := n];
        }
      }
      gs := Put(gs, i, j, With(gs[i].data[j], k, None));
    }

    method Take(i: nat, j: nat, k: Kind, r: Option<Obj>)
      requires Good(Hp()) && i < |gs| && j < 2 && Ref(gs[i].data[j], k).None?
      modifies this`gs, this`refc
      ensures Good(old(Hp())) && Hp() == Attach(old(Hp()), i, j, k, r)
    {
      if r.Some? {
        refc := refc[r.value := (if r.value in refc then refc[r.value] else 0) + 1];
      }
      gs := Put(gs, i, j, With(gs[i].data[j], k, r));
    }

    method GetSession(s: Session) returns (i: nat)
      requires Good(Hp())
      ensures i == Find(gs, s)
    {
      i := 0;
      while i < |gs| && gs[i].session != s
        invariant i <= |gs| && Find(gs, s) == i + Find(gs[i..], s)
      {
        assert gs[i..][1..] == gs[i + 1..];
        i := i + 1;
      }
    }

    method RenewRef(i: nat, j: nat, k: Kind)
      requires Good(Hp()) && i < |gs| && j < 2
      modifies this`gs, this`refc
      ensures Good(old(Hp())) && Hp() == Renew(old(Hp()), i, j, k, nextObj)
    {
      Drop(i, j, k);
      Take(i, j, k, Some(nextObj));
    }

    method SetCounter(i: nat, k: Kind, f: Flag, op: BreakOp)
      requires Good(Hp()) && i < |gs| && active < 2
      modifies this`gs, this`refc
      ensures Good(Hp()) && TwoHalves(old(gs))
      ensures gs == Put(old(gs), i, 1 - active, CountHalf(old(gs[i].data[1 - active]), k, f, op, nextObj))
    {
      PutAgain(gs, i, 1 - active, With(gs[i].data[1 - active], k, Some(nextObj)), CountHalf(gs[i].data[1 - active], k, f, op, nextObj));
      var h := gs[i].data[1 - active];
      if Ref(h, k).Some? && (op.Pause? || k.Count?) {
        PutFlags(i, OnOff(h.flags, f, op));
      } else {
        RenewRef(i, 1 - active, k);
        PutFlags(i, h.flags + {f});
      }
    }

    method PutFlags(i: nat, fs: set<Flag>)
      requires Good(Hp()) && i < |gs| && active < 2
      modifies this`gs
      ensures Good(old(Hp())) && Hp() == SetFlags(old(Hp()), i, 1 - active, fs)
    {
      gs := Put(gs, i, 1 - active, gs[i].data[1 - active].(flags := fs));
    }

    method SetData(i: nat, b: Break, op: BreakOp)
      requires Good(Hp()) && i < |gs| && active < 2
      modifies this`gs, this`refc
      ensures Good(Hp()) && TwoHalves(old(gs))
      ensures gs == Put(old(gs), i, 1 - active, SetHalf(old(gs[i].data[1 - active]), b, op, nextObj))
    {
      var fs := gs[i].data[1 - active].flags;
      match b
      case LocalTrace => PutFlags(i, fs + {Local});
      case GlobalTrace => PutFlags(i, fs + {Global});
      case DebugBreak => PutFlags(i, fs + {Debug});
      case MetaTrace => RenewRef(i, 1 - active, Meta);
      case CallCount => SetCounter(i, Count, CountActive, op);
      case CallTime => SetCounter(i, Time, TimeActive, op);
      case CallMemory => SetCounter(i, Memory, MemoryActive, op);
    }

    method AddSession(s: Session)
      requires Good(Hp())
      modifies this`gs, this`pending
      ensures Good(old(Hp())) && Now() == AddNew(old(Now()), s)
    {
      pending := gs != [];
      gs := [Blank(s)] + gs;
    }

    method SetEntry(i: nat, b: Break, op: BreakOp)
      requires Good(Hp()) && active < 2 && i < |gs|
      modifies this`gs, this`refc, this`nextObj
      ensures Good(old(Hp())) && Now() == SetFound(old(Now()), i, b, op)
    {
      ghost var st := Now();
      SetData(i, b, op);
      SetFoundIs(st, i, b, op, Hp());
      nextObj := nextObj + 1;
    }

    method SetFunctionBreak(s: Session, b: Break, op: BreakOp)
      requires Good(Hp()) && active < 2
      modifies this`gs, this`refc, this`nextObj, this`pending
      ensures Good(old(Hp())) && Now() == DoSet(old(Now()), s, b, op)
    {
      var i := GetSession(s);
      if i == |gs| {
        if op.Restart? || op.Pause? {
          return;
        }
        AddSession(s);
        i := 0;
      }
      SetEntry(i, b, op);
    }

    method DropIf(i: nat, j: nat, k: Kind, c: bool)
      requires Good(Hp()) && i < |gs| && j < 2
      modifies this`gs, this`refc
      ensures Good(old(Hp())) && Hp() == DetachIf(old(Hp()), i, j, k, c)
    {
      if c {
        Drop(i, j, k);
      }
    }

    method DropAll(i: nat, j: nat, cut: set<Kind>)
      requires Good(Hp()) && i < |gs| && j < 2
      modifies this`gs, this`refc
      ensures Good(old(Hp())) && Hp() == DetachAll(old(Hp()), i, j, cut)
    {
      DropIf(i, j, Meta, Meta in cut);
      DropIf(i, j, Count, Count in cut);
      DropIf(i, j, Time, Time in cut);
      DropIf(i, j, Memory, Memory in cut);
    }

    method ClearSession(i: nat, bs: set<Break>)
      requires Good(Hp()) && i < |gs| && active < 2
      modifies this`gs, this`refc
      ensures Good(old(Hp())) && Hp() == ClearAt(old(Hp()), i, 1 - active, bs)
    {
      var j := 1 - active;
      var h := gs[i].data[j];
      ClearAtSteps(Hp(), i, j, bs);
      DropAll(i, j, set k: Kind | KindBreak(k) in bs);
      gs := Put(gs, i, j, gs[i].data[j].(flags := set f | f in h.flags && FlagBreak(f) !in bs));
    }

    method ClearFunctionBreak(s: Session, bs: set<Break>)
      requires Good(Hp()) && active < 2
      modifies this`gs, this`refc
      ensures Good(old(Hp())) && Now() == DoClear(old(Now()), s, bs)
    {
      var i := GetSession(s);
      ghost var hp := Hp();
      if i < |gs| {
        ClearSession(i, bs);
        assert Hp() == ClearAt(hp, i, 1 - active, bs);
      }
    }

    method ClearNext(i: nat)
      requires Good(Hp()) && i < |gs| && active < 2
      modifies this`gs, this`refc
      ensures Good(Hp()) && Good(old(Hp())) && gs == Put(old(gs), i, 1 - active, NO_FLAGS)
    {
      assert ClearHalf(gs[i].data[1 - active], ALL_BREAKS) == NO_FLAGS;
      ClearSession(i, ALL_BREAKS);
    }

    method ClearAllSessions()
      requires Good(Hp()) && active < 2
      modifies this`gs, this`refc
      ensures Good(Hp()) && Cleared(old(gs), gs, 1 - active, |gs|)
    {
      var i := 0;
      while i < |gs|
        invariant i <= |gs| && Good(Hp()) && Cleared(old(gs), gs, 1 - active, i)
      {
        ClearNext(i);
        i := i + 1;
      }
    }

    method ShareRef(i: nat, k: Kind)
      requires Good(Hp()) && i < |gs| && active < 2 && Ref(gs[i].data[1 - active], k).None?
      modifies this`gs, this`refc
      ensures Good(old(Hp())) && Hp() == Share(old(Hp()), i, active, k)
    {
      Take(i, 1 - active, k, Ref(gs[i].data[active], k));
    }

    method ShareRefs(i: nat, k: Kind, k': Kind)
      requires Good(Hp()) && i < |gs| && active < 2 && k != k'
      requires Ref(gs[i].data[1 - active], k).None? && Ref(gs[i].data[1 - active], k').None?
      modifies this`gs, this`refc
      ensures Good(old(Hp())) && Hp() == ShareTwo(old(Hp()), i, active, k, k')
    {
      ShareRef(i, k);
      ShareRef(i, k');
    }

    method CopyRefs(i: nat)
      requires Good(Hp()) && i < |gs| && active < 2
      requires gs[i].data[1 - active] == Half(None, None, None, None, gs[i].data[active].flags)
      modifies this`gs, this`refc
      ensures Good(old(Hp())) && Hp() == ShareAll(old(Hp()), i, active)
    {
      ShareRefs(i, Meta, Count);
      ShareRefs(i, Time, Memory);
    }

    method ConsolidateSession(i: nat)
      requires Good(Hp()) && i < |gs| && active < 2
      modifies this`gs, this`refc
      ensures Good(Hp()) && TwoHalves(old(gs)) && gs == Put(old(gs), i, 1 - active, old(gs[i].data[active]))
    {
      ghost var src := gs[i].data[active];
      ghost var empty := Half(None, None, None, None, src.flags);
      PutAgain(gs, i, 1 - active, Without(gs[i].data[1 - active], {Meta, Count, Time, Memory}), empty);
      PutAgain(gs, i, 1 - active, empty, src);
      DropAll(i, 1 - active, {Meta, Count, Time, Memory});
      PutFlags(i, gs[i].data[active].flags);
      CopyRefs(i);
    }

    method ConsolidateBp(i: nat)
      requires Good(Hp()) && i < |gs| && active < 2
      modifies this`gs, this`refc, this`freed
      ensures Good(old(Hp())) && Hp() == ConsolidateOne(old(Hp()), i, active)
      ensures freed == (if old(gs[i].data[active]) == NO_FLAGS then [old(gs[i].session)] else []) + old(freed)
    {
      ghost var hp := Hp();
      ConsolidateSession(i);
      ConsolidateIs(hp, i, active, Hp());
      if gs[i].data[active] == NO_FLAGS {
        freed := [gs[i].session] + freed;
        gs := gs[..i] + gs[i + 1..];
      }
    }

    method ConsolidateNext(i: nat) returns (i': nat)
      requires Good(Hp()) && i < |gs| && active < 2
      modifies this`gs, this`refc, this`freed
      ensures Good(Hp()) && Good(old(Hp())) && i' <= |gs| && |gs| - i' < |old(gs)| - i
      ensures ConsolidateFrom(Hp(), i', active) == ConsolidateFrom(old(Hp()), i, active)
      ensures Unlinked(gs[i'..], active) + freed == Unlinked(old(gs)[i..], active) + old(freed)
    {
      UnlinkedStep(Hp(), freed, i, active);
      var off := gs[i].data[active] == NO_FLAGS;
      ConsolidateBp(i);
      if off {
        i' := i;
        assert freed == [old(gs[i].session)] + old(freed);
      } else {
        i' := i + 1;
        assert freed == old(freed);
      }
    }

    method Consolidate()
      requires Good(Hp()) && active < 2
      modifies this`gs, this`refc, this`freed
      ensures Good(old(Hp())) && Now() == DoConsolidate(old(Now()))
    {
      var i: nat := 0;
      ghost var hp, out := Hp(), Unlinked(gs, active) + freed;
      while i < |gs|
        invariant i <= |gs| && Good(Hp())
        invariant ConsolidateFrom(Hp(), i, active) == ConsolidateFrom(hp, 0, active)
        invariant Unlinked(gs[i..], active) + freed == out
        decreases |gs| - i
      {
        i := ConsolidateNext(i);
      }
    }

    method Install()
      requires Good(Hp())
      modifies this`installed, this`pending
      ensures Now() == DoInstall(old(Now()))
    {
      if gs != [] {
        if !installed {
          installed := true;
        }
        if pending {
          pending := false;
        }
      }
    }

    method Commit()
      requires active < 2
      modifies this`active
      ensures old(active) < 2 && Now() == DoCommit(old(Now()))
    {
      active := 1 - active;
    }

    method AnyFlags() returns (any: bool)
      requires TwoHalves(gs) && active < 2
      ensures any <==> !AllOff(Linked(Now()), active)
    {
      var l := if pending && gs != [] then gs[1..] else gs;
      any := false;
      var i := 0;
      while i < |l|
        invariant i <= |l| && (any <==> exists n :: 0 <= n < i && l[n].data[active] != NO_FLAGS)
      {
        any := any || l[i].data[active] != NO_FLAGS;
        i := i + 1;
      }
    }

    method Uninstall()
      requires TwoHalves(gs) && active < 2
      modifies this`installed
      ensures TwoHalves(old(gs)) && Now() == DoUninstall(old(Now()))
    {
      if installed {
        var any := AnyFlags();
        if !any {
          installed := false;
        }
      }
    }
  }
}
