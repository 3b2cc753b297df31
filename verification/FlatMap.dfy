module FlatMap {
  // Updating a small map (beam_common.c).  A flat map is a block of values with a
  // tuple of keys in term order; an update merges the sorted list of new pairs into
  // a block that is laid out before its final size is known.  Keys stand for their
  // place in the term order, and values for the word that represents them.

  import opened Options

  type Key = int
  type Val = int

  const HEADER_SZ: nat := 3
  const SMALL_MAP_LIMIT: nat := 32

  /** A list of pairs, as two lists. */
  datatype Pairs = Pairs(ks: seq<Key>, vs: seq<Val>)

  predicate Sorted(ks: seq<Key>) {
    forall i, j :: 0 <= i < j < |ks| ==> ks[i] < ks[j]
  }

  predicate Wf(p: Pairs) {
    |p.ks| == |p.vs| && Sorted(p.ks)
  }

  function Tail(p: Pairs): (r: Pairs)
    requires Wf(p) && p.ks != []
    ensures Wf(r)
  {
    Pairs(p.ks[1..], p.vs[1..])
  }

  function Cons(k: Key, v: Val, p: Pairs): Pairs {
    Pairs([k] + p.ks, [v] + p.vs)
  }

  /** What a map with these pairs gives for key k. */
  function Lookup(p: Pairs, k: Key): Option<Val>
    requires |p.ks| == |p.vs|
    decreases |p.ks|
  {
    if p.ks == [] then None
    else if p.ks[0] == k then Some(p.vs[0])
    else Lookup(Pairs(p.ks[1..], p.vs[1..]), k)
  }

  lemma {:induction false} LookupIs(p: Pairs, k: Key)
    requires Wf(p)
    ensures Lookup(p, k).Some? <==> k in p.ks
    ensures forall i :: 0 <= i < |p.ks| && p.ks[i] == k ==> Lookup(p, k) == Some(p.vs[i])
    decreases |p.ks|
  {
    if p.ks != [] {
      LookupIs(Tail(p), k);
      assert p.ks == [p.ks[0]] + Tail(p).ks;
      forall i | 0 <= i < |p.ks| && p.ks[i] == k ensures Lookup(p, k) == Some(p.vs[i]) {
        if i > 0 {
          assert Tail(p).ks[i - 1] == k;
        }
      }
    }
  }

  // ----- the merge

  function Merge(o: Pairs, u: Pairs): (r: Pairs)
    requires Wf(o) && Wf(u)
    ensures |r.ks| == |r.vs| <= |o.ks| + |u.ks| && |r.ks| >= |o.ks| && |r.ks| >= |u.ks|
    decreases |o.ks| + |u.ks|
  {
    if u.ks == [] then o
    else if o.ks == [] then u
    else if o.ks[0] < u.ks[0] then Cons(o.ks[0], o.vs[0], Merge(Tail(o), u))
    else if o.ks[0] > u.ks[0] then Cons(u.ks[0], u.vs[0], Merge(o, Tail(u)))
    else Cons(u.ks[0], u.vs[0], Merge(Tail(o), Tail(u)))
  }

  lemma {:induction false} MergeKeys(o: Pairs, u: Pairs, k: Key)
    requires Wf(o) && Wf(u)
    ensures k in Merge(o, u).ks <==> k in o.ks || k in u.ks
    decreases |o.ks| + |u.ks|
  {
    if u.ks != [] && o.ks != [] {
      assert o.ks == [o.ks[0]] + Tail(o).ks && u.ks == [u.ks[0]] + Tail(u).ks;
      if o.ks[0] < u.ks[0] {
        MergeKeys(Tail(o), u, k);
      } else if o.ks[0] > u.ks[0] {
        MergeKeys(o, Tail(u), k);
      } else {
        MergeKeys(Tail(o), Tail(u), k);
      }
    }
  }

  lemma ConsSorted(k: Key, ks: seq<Key>)
    requires Sorted(ks) && forall x :: x in ks ==> k < x
    ensures Sorted([k] + ks)
  {
    assert forall j :: 0 <= j < |ks| ==> ks[j] in ks;
  }

  lemma TailAbove(p: Pairs, x: Key)
    requires Wf(p) && p.ks != [] && x in p.ks
    ensures p.ks[0] <= x && (x in Tail(p).ks ==> p.ks[0] < x)
  {
  }

  lemma {:induction false} MergeSorted(o: Pairs, u: Pairs)
    requires Wf(o) && Wf(u)
    ensures Wf(Merge(o, u))
    decreases |o.ks| + |u.ks|
  {
    if u.ks != [] && o.ks != [] {
      var o', u' := if o.ks[0] <= u.ks[0] then Tail(o) else o, if o.ks[0] >= u.ks[0] then Tail(u) else u;
      MergeSorted(o', u');
      var k := if o.ks[0] < u.ks[0] then o.ks[0] else u.ks[0];
      forall x | x in Merge(o', u').ks ensures k < x {
        MergeKeys(o', u', x);
        if x in o'.ks {
          TailAbove(o, x);
        } else {
          TailAbove(u, x);
        }
      }
      ConsSorted(k, Merge(o', u').ks);
    }
  }

  lemma NotBelow(p: Pairs, k: Key)
    requires Wf(p) && p.ks != [] && k < p.ks[0]
    ensures Lookup(p, k).None?
  {
    LookupIs(p, k);
  }

  function Over(u: Option<Val>, o: Option<Val>): Option<Val> {
    if u.Some? then u else o
  }

  /** The merge is the old map overridden by the updates, for every key. */
  lemma {:induction false} MergeOverrides(o: Pairs, u: Pairs, k: Key)
    requires Wf(o) && Wf(u)
    ensures Lookup(Merge(o, u), k) == Over(Lookup(u, k), Lookup(o, k))
    decreases |o.ks| + |u.ks|
  {
    if u.ks != [] && o.ks != [] {
      var m := Merge(o, u);
      var rest := Pairs(m.ks[1..], m.vs[1..]);
      if o.ks[0] < u.ks[0] {
        MergeOverrides(Tail(o), u, k);
        assert rest == Merge(Tail(o), u);
        if k == o.ks[0] {
          NotBelow(u, k);
        }
      } else if o.ks[0] > u.ks[0] {
        MergeOverrides(o, Tail(u), k);
        assert rest == Merge(o, Tail(u));
      } else {
        MergeOverrides(Tail(o), Tail(u), k);
        assert rest == Merge(Tail(o), Tail(u));
      }
    }
  }

  // ----- whether anything changes

  predicate AllKeysOld(o: Pairs, u: Pairs) {
    forall k :: k in u.ks ==> k in o.ks
  }

  /** With no new key the old key tuple serves. */
  lemma {:induction false} MergeOldKeys(o: Pairs, u: Pairs)
    requires Wf(o) && Wf(u)
    ensures AllKeysOld(o, u) <==> Merge(o, u).ks == o.ks
  {
    MergeSorted(o, u);
    if AllKeysOld(o, u) {
      forall k ensures k in Merge(o, u).ks <==> k in o.ks {
        MergeKeys(o, u, k);
      }
      SortedUnique(Merge(o, u).ks, o.ks);
    } else {
      var k :| k in u.ks && k !in o.ks;
      MergeKeys(o, u, k);
    }
  }

  lemma {:induction false} SortedUnique(a: seq<Key>, b: seq<Key>)
    requires Sorted(a) && Sorted(b) && forall k :: k in a <==> k in b
    ensures a == b
  {
    assert a != [] ==> a[0] in a && a[0] in b;
    assert b != [] ==> b[0] in b && b[0] in a;
    if a != [] && b != [] {
      assert a[0] == b[0];
      forall k ensures k in a[1..] <==> k in b[1..] {
        assert k in a[1..] <==> k in a && k != a[0];
        assert k in b[1..] <==> k in b && k != b[0];
      }
      SortedUnique(a[1..], b[1..]);
      assert a == [a[0]] + a[1..] && b == [b[0]] + b[1..];
    }
  }

  // ----- the block on the heap

  datatype Word = MapHeader | Size(n: nat) | Keys(at: nat) | OldKeys | Term(t: int) | Arity(n: nat) | BignumHeader(n: nat) | Unset

  /** What was reserved for the worst case, that all keys are new. */
  function Need(old_: nat, updates: nat): nat {
    2 * (old_ + updates) + 1 + HEADER_SZ
  }

  predicate Filled(h: seq<Word>, base: nat, xs: seq<int>) {
    base + |xs| <= |h| && forall i :: 0 <= i < |xs| ==> h[base + i] == Term(xs[i])
  }

  /** Walking the heap object by object from at ends exactly at its end. */
  predicate Parses(h: seq<Word>, at: nat)
    decreases |h| - at
  {
    at == |h| || (at < |h| && ObjectSize(h, at).Some? && Parses(h, at + ObjectSize(h, at).value))
  }

  function ObjectSize(h: seq<Word>, at: nat): (r: Option<nat>)
    requires at < |h|
    ensures r.Some? ==> r.value > 0
  {
    match h[at]
    case MapHeader => if at + 1 < |h| && h[at + 1].Size? then Some(HEADER_SZ + h[at + 1].n) else None
    case Arity(n) => Some(n + 1)
    case BignumHeader(n) => Some(n + 1)
    case _ => None
  }

  /** The block is a flat map with these pairs; its keys are in its own tuple or in
      that of the old map. */
  predicate IsMap(h: seq<Word>, p: Pairs, oldKeys: seq<Key>) {
    && |h| >= HEADER_SZ && h[0] == MapHeader && h[1] == Size(|p.ks|) && |p.ks| == |p.vs|
    && Filled(h, HEADER_SZ, p.vs)
    && match h[2]
       case OldKeys => p.ks == oldKeys
       case Keys(at) => at < |h| && h[at] == Arity(|p.ks|) && Filled(h, at + 1, p.ks)
       case _ => false
  }

  // ----- the merge loop

  function Drop(p: Pairs, i: nat): (r: Pairs)
    requires Wf(p) && i <= |p.ks|
    ensures Wf(r) && |r.ks| == |p.ks| - i
  {
    Pairs(p.ks[i..], p.vs[i..])
  }

  function Append(w: Pairs, r: Pairs): Pairs {
    Pairs(w.ks + r.ks, w.vs + r.vs)
  }

  function Snoc(w: Pairs, k: Key, v: Val): Pairs {
    Pairs(w.ks + [k], w.vs + [v])
  }

  lemma AppendSnoc(w: Pairs, k: Key, v: Val, r: Pairs)
    ensures Append(Snoc(w, k, v), r) == Append(w, Cons(k, v, r))
  {
    assert w.ks + [k] + r.ks == w.ks + ([k] + r.ks);
    assert w.vs + [v] + r.vs == w.vs + ([v] + r.vs);
  }

  lemma DropTail(p: Pairs, i: nat)
    requires Wf(p) && i < |p.ks|
    ensures Tail(Drop(p, i)) == Drop(p, i + 1) && Drop(p, i).ks[0] == p.ks[i] && Drop(p, i).vs[0] == p.vs[i]
  {
  }

  /** Where the merge is: i old pairs and j updates are used up, and w is written. */
  datatype Cursor = Cursor(i: nat, j: nat, w: Pairs, changedKeys: bool, changedValues: bool)

  predicate At(o: Pairs, u: Pairs, c: Cursor) {
    && Wf(o) && Wf(u) && c.i <= |o.ks| && c.j <= |u.ks| && |c.w.ks| == |c.w.vs| <= c.i + c.j && c.i <= |c.w.ks|
    && Append(c.w, Merge(Drop(o, c.i), Drop(u, c.j))) == Merge(o, u)
    && Marks(o, c)
  }

  function Step(o: Pairs, u: Pairs, c: Cursor): Cursor
    requires At(o, u, c) && c.i < |o.ks| && c.j < |u.ks|
  {
    if o.ks[c.i] < u.ks[c.j] then c.(i := c.i + 1, w := Snoc(c.w, o.ks[c.i], o.vs[c.i]))
    else if o.ks[c.i] > u.ks[c.j] then
      c.(j := c.j + 1, w := Snoc(c.w, u.ks[c.j], u.vs[c.j]), changedKeys := true)
    else
      c.(i := c.i + 1, j := c.j + 1, w := Snoc(c.w, o.ks[c.i], u.vs[c.j]),
      changedValues := c.changedValues || o.vs[c.i] != u.vs[c.j])
  }

  /** The pair that is written next heads what remains of the merge. */
  lemma StepHeads(o: Pairs, u: Pairs, i: nat, j: nat)
    requires Wf(o) && Wf(u) && i < |o.ks| && j < |u.ks|
    ensures var r := Merge(Drop(o, i), Drop(u, j));
      && (o.ks[i] < u.ks[j] ==> r == Cons(o.ks[i], o.vs[i], Merge(Drop(o, i + 1), Drop(u, j))))
      && (o.ks[i] > u.ks[j] ==> r == Cons(u.ks[j], u.vs[j], Merge(Drop(o, i), Drop(u, j + 1))))
      && (o.ks[i] == u.ks[j] ==> r == Cons(o.ks[i], u.vs[j], Merge(Drop(o, i + 1), Drop(u, j + 1))))
  {
    DropTail(o, i);
    DropTail(u, j);
  }

  lemma StepMerges(o: Pairs, u: Pairs, c: Cursor)
    requires At(o, u, c) && c.i < |o.ks| && c.j < |u.ks|
    ensures var c' := Step(o, u, c); Append(c'.w, Merge(Drop(o, c'.i), Drop(u, c'.j))) == Merge(o, u)
  {
    StepHeads(o, u, c.i, c.j);
    if o.ks[c.i] < u.ks[c.j] {
      AppendSnoc(c.w, o.ks[c.i], o.vs[c.i], Merge(Drop(o, c.i + 1), Drop(u, c.j)));
    } else if o.ks[c.i] > u.ks[c.j] {
      AppendSnoc(c.w, u.ks[c.j], u.vs[c.j], Merge(Drop(o, c.i), Drop(u, c.j + 1)));
    } else {
      AppendSnoc(c.w, o.ks[c.i], u.vs[c.j], Merge(Drop(o, c.i + 1), Drop(u, c.j + 1)));
    }
  }

  predicate Marks(o: Pairs, c: Cursor)
    requires |o.ks| == |o.vs|
  {
    && c.i <= |o.ks| && |c.w.ks| == |c.w.vs| && c.i <= |c.w.ks|
    && (c.changedKeys <==> |c.w.ks| > c.i)
    && (!c.changedKeys ==> c.w.ks == o.ks[..c.i] && (c.changedValues <==> c.w.vs != o.vs[..c.i]))
  }

  lemma StepMarks(o: Pairs, u: Pairs, c: Cursor)
    requires At(o, u, c) && c.i < |o.ks| && c.j < |u.ks|
    ensures Marks(o, Step(o, u, c))
  {
    var c' := Step(o, u, c);
    assert o.ks[..c.i + 1] == o.ks[..c.i] + [o.ks[c.i]] && o.vs[..c.i + 1] == o.vs[..c.i] + [o.vs[c.i]];
    assert c'.w.vs[..|c.w.vs|] == c.w.vs;
    assert o.vs[..c.i + 1][..c.i] == o.vs[..c.i];
  }

  lemma StepAt(o: Pairs, u: Pairs, c: Cursor)
    requires At(o, u, c) && c.i < |o.ks| && c.j < |u.ks|
    ensures At(o, u, Step(o, u, c)) && |Step(o, u, c).w.ks| == |c.w.ks| + 1
    ensures c.i + c.j < Step(o, u, c).i + Step(o, u, c).j
  {
    StepMerges(o, u, c);
    StepMarks(o, u, c);
  }

  // ----- erts_gc_update_map_assoc

  /** The map itself, a new map of the updates alone, a flat map in the block, or a
      hash map made of the pairs in the block. */
  datatype Outcome = Unchanged | NewMap | Flat | Hash

  /** Values are written from HEADER_SZ on and keys from base on; w is written so far. */
  predicate Laid(h: seq<Word>, base: nat, w: Pairs) {
    && HEADER_SZ <= |h| && HEADER_SZ + |w.vs| < base && h[0] == MapHeader && h[2] == Keys(base - 1)
    && Filled(h, HEADER_SZ, w.vs) && Filled(h, base, w.ks)
  }

  /** Writes one pair. */
  method Emit(heap: array<Word>, hp: nat, kp: nat, k: Key, v: Val, ghost base: nat, ghost w: Pairs)
    requires |w.ks| == |w.vs| && Laid(heap[..], base, w)
    requires hp == HEADER_SZ + |w.vs| && kp == base + |w.ks| && hp + 1 < base && kp < heap.Length
    modifies heap
    ensures Laid(heap[..], base, Snoc(w, k, v))
  {
    heap[kp] := Term(k);
    heap[hp] := Term(v);
  }

  /** Writes the next pair of the merge. */
  method MergeOne(o: Pairs, u: Pairs, heap: array<Word>, i: nat, j: nat, ck: bool, cv: bool, hp: nat, kp: nat, ghost base: nat, ghost w: Pairs)
    returns (i': nat, j': nat, ck': bool, cv': bool)
    requires At(o, u, Cursor(i, j, w, ck, cv)) && i < |o.ks| && j < |u.ks| && Laid(heap[..], base, w)
    requires hp == HEADER_SZ + |w.vs| && kp == base + |w.ks| && hp + 1 < base && kp < heap.Length
    modifies heap
    ensures var c' := Step(o, u, Cursor(i, j, w, ck, cv));
      c' == Cursor(i', j', c'.w, ck', cv') && Laid(heap[..], base, c'.w)
  {
    i', j', ck', cv' := i, j, ck, cv;
    if o.ks[i] < u.ks[j] {
      Emit(heap, hp, kp, o.ks[i], o.vs[i], base, w);
      i' := i + 1;
    } else {
      if o.ks[i] > u.ks[j] {
        Emit(heap, hp, kp, u.ks[j], u.vs[j], base, w);
        ck' := true;
      } else {
        Emit(heap, hp, kp, o.ks[i], u.vs[j], base, w);
        cv' := cv || o.vs[i] != u.vs[j];
        i' := i + 1;
      }
      j' := j + 1;
    }
  }

  /** Until the old pairs or the updates run out. */
  method MergeLoop(o: Pairs, u: Pairs, heap: array<Word>, base: nat) returns (i: nat, j: nat, ck: bool, cv: bool, n: nat, ghost w: Pairs)
    requires Wf(o) && Wf(u) && o.ks != [] && u.ks != []
    requires base == HEADER_SZ + |o.ks| + |u.ks| + 1 && heap.Length == Need(|o.ks|, |u.ks|) && Laid(heap[..], base, Pairs([], []))
    modifies heap
    ensures At(o, u, Cursor(i, j, w, ck, cv)) && (i == |o.ks| || j == |u.ks|) && Laid(heap[..], base, w) && n == |w.ks|
  {
    i, j, ck, cv, w, n := 0, 0, false, false, Pairs([], []), 0;
    assert Drop(o, 0) == o && Drop(u, 0) == u;
    while i < |o.ks| && j < |u.ks|
      invariant At(o, u, Cursor(i, j, w, ck, cv)) && Laid(heap[..], base, w) && n == |w.ks|
      decreases |o.ks| + |u.ks| - (i + j)
    {
      ghost var c := Cursor(i, j, w, ck, cv);
      StepAt(o, u, c);
      i, j, ck, cv := MergeOne(o, u, heap, i, j, ck, cv, HEADER_SZ + n, base + n, base, w);
      w := Step(o, u, c).w;
      n := n + 1;
    }
  }

  /** Copies the pairs of r from i on. */
  method CopyPairs(r: Pairs, i: nat, heap: array<Word>, base: nat, n: nat, ghost w: Pairs) returns (n': nat)
    requires Wf(r) && i <= |r.ks| && n == |w.ks| == |w.vs| && Laid(heap[..], base, w)
    requires HEADER_SZ + n + (|r.ks| - i) < base && base + n + (|r.ks| - i) <= heap.Length
    modifies heap
    ensures n' == n + |r.ks| - i && Laid(heap[..], base, Append(w, Drop(r, i)))
  {
    var x := i;
    ghost var done := w;
    while x < |r.ks|
      invariant i <= x <= |r.ks| && |done.ks| == |done.vs| == n + x - i && Laid(heap[..], base, done)
      invariant Append(done, Drop(r, x)) == Append(w, Drop(r, i))
    {
      Emit(heap, HEADER_SZ + n + x - i, base + n + x - i, r.ks[x], r.vs[x], base, done);
      DropCons(r, x);
      AppendSnoc(done, r.ks[x], r.vs[x], Drop(r, x + 1));
      done := Snoc(done, r.ks[x], r.vs[x]);
      x := x + 1;
    }
    n' := n + |r.ks| - i;
    assert Append(done, Drop(r, x)) == done;
  }

  lemma DropCons(r: Pairs, x: nat)
    requires Wf(r) && x < |r.ks|
    ensures Drop(r, x) == Cons(r.ks[x], r.vs[x], Drop(r, x + 1))
  {
  }

  /** Fills the gap after the values, and writes the sizes. */
  method Finish(heap: array<Word>, base: nat, n: nat, ghost w: Pairs) returns (htop: nat)
    requires n == |w.ks| == |w.vs| && Laid(heap[..], base, w)
    modifies heap
    ensures htop == base + n <= heap.Length
    ensures IsMap(heap[..htop], w, []) && heap[2] == Keys(base - 1) && Parses(heap[..htop], 0)
  {
    var gap := base - 1 - (HEADER_SZ + n);
    if gap > 0 {
      heap[HEADER_SZ + n] := BignumHeader(gap - 1);
    }
    heap[1] := Size(n);
    heap[base - 1] := Arity(n);
    htop := base + n;
    ghost var h := heap[..htop];
    assert Filled(heap[..], HEADER_SZ, w.vs) && Filled(heap[..], base, w.ks);
    BlockParses(h, base, n);
  }

  lemma BlockParses(h: seq<Word>, base: nat, n: nat)
    requires HEADER_SZ + n < base && |h| == base + n && h[0] == MapHeader && h[1] == Size(n) && h[base - 1] == Arity(n)
    requires HEADER_SZ + n < base - 1 ==> h[HEADER_SZ + n] == BignumHeader(base - 1 - (HEADER_SZ + n) - 1)
    ensures Parses(h, 0)
  {
    assert Parses(h, base + n);
    assert ObjectSize(h, base - 1) == Some(n + 1);
    assert Parses(h, base - 1);
    assert Parses(h, HEADER_SZ + n);
  }

  /** Only values have changed: the old key tuple is kept. */
  method KeepKeys(o: Pairs, i: nat, heap: array<Word>, ghost base: nat, ghost w: Pairs) returns (htop: nat)
    requires Wf(o) && i == |w.ks| == |w.vs| <= |o.ks| && Laid(heap[..], base, w) && HEADER_SZ + |o.ks| < base <= heap.Length
    modifies heap
    ensures htop == HEADER_SZ + |o.ks| <= heap.Length && heap[2] == OldKeys
    ensures IsMap(heap[..htop], Pairs(o.ks, w.vs + o.vs[i..]), o.ks) && Parses(heap[..htop], 0)
  {
    heap[1] := Size(|o.ks|);
    heap[2] := OldKeys;
    ghost var vs := w.vs + o.vs[i..];
    var x := i;
    while x < |o.vs|
      invariant i <= x <= |o.vs| && heap[0] == MapHeader && heap[1] == Size(|o.ks|) && heap[2] == OldKeys
      invariant forall y :: 0 <= y < x ==> heap[HEADER_SZ + y] == Term(vs[y])
    {
      heap[HEADER_SZ + x] := Term(o.vs[x]);
      x := x + 1;
    }
    htop := HEADER_SZ + |o.ks|;
    assert Parses(heap[..htop], htop);
  }

  /** The update as a whole, against the merge. */
  method UpdateAssoc(o: Pairs, u: Pairs, heap: array<Word>) returns (out: Outcome, htop: nat)
    requires Wf(o) && Wf(u) && u.ks != [] && heap.Length == Need(|o.ks|, |u.ks|)
    modifies heap
    ensures out.NewMap? <==> o.ks == []
    ensures o.ks != [] ==> (out.Unchanged? <==> Merge(o, u) == o)
    ensures out.Flat? || out.Hash? ==> htop <= heap.Length && IsMap(heap[..htop], Merge(o, u), o.ks) && Parses(heap[..htop], 0)
    ensures out.Flat? || out.Hash? ==> (heap[2] == OldKeys <==> Merge(o, u).ks == o.ks)
    ensures out.Hash? ==> |Merge(o, u).ks| > SMALL_MAP_LIMIT
    ensures out.Flat? && |o.ks| <= SMALL_MAP_LIMIT ==> |Merge(o, u).ks| <= SMALL_MAP_LIMIT
  {
    htop := 0;
    if o.ks == [] {
      return NewMap, 0;
    }
    var base := HEADER_SZ + |o.ks| + |u.ks| + 1;
    heap[0] := MapHeader;
    heap[2] := Keys(base - 1);
    var i, j, ck, cv, n;
    ghost var w;
    i, j, ck, cv, n, w := MergeLoop(o, u, heap, base);
    ghost var c := Cursor(i, j, w, ck, cv);
    if j < |u.ks| {
      EndUpdates(o, u, c);
      out, htop := CopyAndFinish(u, j, heap, base, n, w);
    } else {
      EndOld(o, u, c);
      if !ck && !cv {
        return Unchanged, 0;
      } else if !ck {
        htop := KeepKeys(o, i, heap, base, w);
        return Flat, htop;
      }
      out, htop := CopyAndFinish(o, i, heap, base, n, w);
    }
  }

  /** Copies what is left of r and finishes the block. */
  method CopyAndFinish(r: Pairs, i: nat, heap: array<Word>, base: nat, n: nat, ghost w: Pairs) returns (out: Outcome, htop: nat)
    requires Wf(r) && i <= |r.ks| && n == |w.ks| == |w.vs| && Laid(heap[..], base, w)
    requires HEADER_SZ + n + (|r.ks| - i) < base && base + n + (|r.ks| - i) <= heap.Length
    modifies heap
    ensures var m := Append(w, Drop(r, i));
      && htop <= heap.Length && heap[2] == Keys(base - 1) && IsMap(heap[..htop], m, []) && Parses(heap[..htop], 0)
      && out == if |m.ks| > SMALL_MAP_LIMIT then Hash else Flat
  {
    var n' := CopyPairs(r, i, heap, base, n, w);
    htop := Finish(heap, base, n', Append(w, Drop(r, i)));
    out := if n' > SMALL_MAP_LIMIT then Hash else Flat;
  }

  lemma EndUpdates(o: Pairs, u: Pairs, c: Cursor)
    requires At(o, u, c) && c.i == |o.ks| && c.j < |u.ks|
    ensures Merge(o, u) == Append(c.w, Drop(u, c.j)) && |Merge(o, u).ks| > |o.ks|
  {
  }

  lemma EndOld(o: Pairs, u: Pairs, c: Cursor)
    requires At(o, u, c) && c.j == |u.ks|
    ensures Merge(o, u) == Append(c.w, Drop(o, c.i))
    ensures c.changedKeys ==> |Merge(o, u).ks| > |o.ks|
    ensures !c.changedKeys ==> Merge(o, u) == Pairs(o.ks, c.w.vs + o.vs[c.i..]) && (c.changedValues <==> Merge(o, u) != o)
  {
    assert o.ks == o.ks[..c.i] + o.ks[c.i..] && o.vs == o.vs[..c.i] + o.vs[c.i..];
    if !c.changedKeys && c.w.vs + o.vs[c.i..] == o.vs {
      assert c.w.vs == o.vs[..c.i];
    }
  }

  // ----- erts_gc_update_map_exact

  datatype ExactOutcome = Same | Updated | BadKey(k: Key)

  /** The first j updates have found their keys below i, and the next has not; once its
      place has been passed it never will. */
  predicate Seeking(o: Pairs, u: Pairs, i: nat, j: nat, w: seq<Val>, changed: bool, gone: bool) {
    && Wf(o) && Wf(u) && i <= |o.ks| && j < |u.ks| && |w| == i
    && (forall x :: 0 <= x < j ==> u.ks[x] in o.ks)
    && (gone ==> u.ks[j] !in o.ks)
    && (!gone ==> (forall x :: 0 <= x < i ==> o.ks[x] < u.ks[j]) && At(o, u, Cursor(i, j, Pairs(o.ks[..i], w), false, changed)))
  }

  lemma SeekOther(o: Pairs, u: Pairs, i: nat, j: nat, w: seq<Val>, changed: bool, gone: bool)
    requires Seeking(o, u, i, j, w, changed, gone) && i < |o.ks| && o.ks[i] != u.ks[j]
    ensures Seeking(o, u, i + 1, j, w + [o.vs[i]], changed, gone || u.ks[j] < o.ks[i])
  {
    if !gone && o.ks[i] < u.ks[j] {
      StepAt(o, u, Cursor(i, j, Pairs(o.ks[..i], w), false, changed));
      assert o.ks[..i + 1] == o.ks[..i] + [o.ks[i]];
    }
  }

  lemma SeekSame(o: Pairs, u: Pairs, i: nat, j: nat, w: seq<Val>, changed: bool, gone: bool)
    requires Seeking(o, u, i, j, w, changed, gone) && i < |o.ks| && o.ks[i] == u.ks[j]
    ensures At(o, u, Cursor(i + 1, j + 1, Pairs(o.ks[..i + 1], w + [u.vs[j]]), false, changed || u.vs[j] != o.vs[i]))
    ensures j + 1 < |u.ks| ==> Seeking(o, u, i + 1, j + 1, w + [u.vs[j]], changed || u.vs[j] != o.vs[i], false)
    ensures forall x :: 0 <= x <= j ==> u.ks[x] in o.ks
  {
    StepAt(o, u, Cursor(i, j, Pairs(o.ks[..i], w), false, changed));
    assert o.ks[..i + 1] == o.ks[..i] + [o.ks[i]];
  }

  lemma SeekEnd(o: Pairs, u: Pairs, j: nat, w: seq<Val>, changed: bool, gone: bool)
    requires Seeking(o, u, |o.ks|, j, w, changed, gone)
    ensures IsFirstMissing(o, u, u.ks[j])
  {
    assert gone || forall x :: 0 <= x < |o.ks| ==> o.ks[x] != u.ks[j];
  }

  /** k is the first key of the updates that the map does not have. */
  ghost predicate IsFirstMissing(o: Pairs, u: Pairs, k: Key) {
    exists j :: 0 <= j < |u.ks| && u.ks[j] == k && k !in o.ks && forall x :: 0 <= x < j ==> u.ks[x] in o.ks
  }

  lemma MatchedAll(o: Pairs, u: Pairs, i: nat, w: seq<Val>, changed: bool)
    requires Wf(o) && Wf(u) && |w| == i <= |o.ks| && forall x :: 0 <= x < |u.ks| ==> u.ks[x] in o.ks
    requires At(o, u, Cursor(i, |u.ks|, Pairs(o.ks[..i], w), false, changed))
    ensures AllKeysOld(o, u) && Merge(o, u) == Pairs(o.ks, w + o.vs[i..]) && (changed <==> Merge(o, u) != o)
  {
    EndOld(o, u, Cursor(i, |u.ks|, Pairs(o.ks[..i], w), false, changed));
  }

  predicate Started(h: seq<Word>, n: nat, w: seq<Val>) {
    && |h| == HEADER_SZ + n && |w| <= n && h[0] == MapHeader && h[1] == Size(n) && h[2] == OldKeys
    && Filled(h, HEADER_SZ, w)
  }

  method PutValue(heap: array<Word>, i: nat, v: Val, ghost n: nat, ghost w: seq<Val>)
    requires Started(heap[..], n, w) && i == |w| < n
    modifies heap
    ensures Started(heap[..], n, w + [v])
  {
    heap[HEADER_SZ + i] := Term(v);
  }

  method CopyValues(o: Pairs, i: nat, heap: array<Word>, ghost w: seq<Val>)
    requires Wf(o) && i == |w| <= |o.ks| && Started(heap[..], |o.ks|, w)
    modifies heap
    ensures Started(heap[..], |o.ks|, w + o.vs[i..])
  {
    var x := i;
    ghost var done := w;
    while x < |o.vs|
      invariant i <= x <= |o.vs| && |done| == x && Started(heap[..], |o.ks|, done) && done + o.vs[x..] == w + o.vs[i..]
    {
      PutValue(heap, x, o.vs[x], |o.ks|, done);
      done := done + [o.vs[x]];
      x := x + 1;
    }
    assert done == w + o.vs[i..];
  }

  lemma StartedIsMap(h: seq<Word>, o: Pairs, vs: seq<Val>)
    requires Wf(o) && |vs| == |o.ks| && Started(h, |o.ks|, vs)
    ensures IsMap(h, Pairs(o.ks, vs), o.ks) && Parses(h, 0)
  {
    assert Parses(h, |h|);
  }

  /** Succeeds exactly if every key exists, and then agrees with UpdateAssoc. */
  method UpdateExact(o: Pairs, u: Pairs, heap: array<Word>) returns (out: ExactOutcome)
    requires Wf(o) && Wf(u) && u.ks != [] && heap.Length == |o.ks| + HEADER_SZ
    modifies heap
    ensures out.BadKey? <==> !AllKeysOld(o, u)
    ensures out.BadKey? ==> IsFirstMissing(o, u, out.k)
    ensures out.Same? <==> AllKeysOld(o, u) && Merge(o, u) == o
    ensures out.Updated? ==> IsMap(heap[..], Merge(o, u), o.ks) && Parses(heap[..], 0)
  {
    ghost var w: seq<Val> := [];
    ghost var gone := false;
    var i, j, changed := 0, 0, false;
    if o.ks == [] {
      assert IsFirstMissing(o, u, u.ks[0]);
      return BadKey(u.ks[0]);
    }
    heap[0], heap[1], heap[2] := MapHeader, Size(|o.ks|), OldKeys;
    SeekStart(o, u);
    while i < |o.ks|
      invariant Seeking(o, u, i, j, w, changed, gone) && Started(heap[..], |o.ks|, w)
    {
      if o.ks[i] != u.ks[j] {
        SeekOther(o, u, i, j, w, changed, gone);
        PutValue(heap, i, o.vs[i], |o.ks|, w);
        gone := gone || u.ks[j] < o.ks[i];
        w := w + [o.vs[i]];
      } else {
        SeekSame(o, u, i, j, w, changed, gone);
        PutValue(heap, i, u.vs[j], |o.ks|, w);
        w := w + [u.vs[j]];
        changed := changed || u.vs[j] != o.vs[i];
        gone := false;
        j := j + 1;
        if j == |u.ks| {
          out := FinishExact(o, u, i + 1, changed, heap, w);
          return;
        }
      }
      i := i + 1;
    }
    SeekEnd(o, u, j, w, changed, gone);
    out := BadKey(u.ks[j]);
  }

  lemma SeekStart(o: Pairs, u: Pairs)
    requires Wf(o) && Wf(u) && u.ks != []
    ensures Seeking(o, u, 0, 0, [], false, false)
  {
    assert Drop(o, 0) == o && Drop(u, 0) == u;
  }

  method FinishExact(o: Pairs, u: Pairs, i: nat, changed: bool, heap: array<Word>, ghost w: seq<Val>) returns (out: ExactOutcome)
    requires Wf(o) && Wf(u) && |w| == i <= |o.ks| && Started(heap[..], |o.ks|, w)
    requires forall x :: 0 <= x < |u.ks| ==> u.ks[x] in o.ks
    requires At(o, u, Cursor(i, |u.ks|, Pairs(o.ks[..i], w), false, changed))
    modifies heap
    ensures AllKeysOld(o, u) && (out.Same? <==> Merge(o, u) == o) && !out.BadKey?
    ensures out.Updated? ==> IsMap(heap[..], Merge(o, u), o.ks) && Parses(heap[..], 0)
  {
    MatchedAll(o, u, i, w, changed);
    if changed {
      CopyValues(o, i, heap, w);
      StartedIsMap(heap[..], o, w + o.vs[i..]);
      out := Updated;
    } else {
      out := Same;
    }
  }

  // ----- beam_load_map_key_sort

  predicate Ascending(ks: seq<Key>) {
    forall i, j :: 0 <= i < j < |ks| ==> ks[i] <= ks[j]
  }

  predicate Distinct(ks: seq<Key>) {
    forall i, j :: 0 <= i < j < |ks| ==> ks[i] != ks[j]
  }

  lemma {:induction false} DistinctCount(ks: seq<Key>)
    ensures Distinct(ks) <==> forall k :: multiset(ks)[k] <= 1
  {
    if ks != [] {
      var n := |ks| - 1;
      DistinctCount(ks[..n]);
      assert ks == ks[..n] + [ks[n]];
      if Distinct(ks) {
        assert ks[n] !in ks[..n];
      } else if Distinct(ks[..n]) {
        var i, j :| 0 <= i < j < |ks| && ks[i] == ks[j];
        assert ks[..n][i] == ks[n];
        assert multiset(ks)[ks[n]] >= 2;
      } else {
        var k :| multiset(ks[..n])[k] > 1;
        assert multiset(ks)[k] > 1;
      }
    }
  }

  /** Any sort of the pairs by key, stable or not, gives what the merge needs exactly
      when the keys are distinct. */
  lemma KeySortSuffices(ts: seq<(Key, Val)>, rs: seq<(Key, Val)>)
    requires multiset(ts) == multiset(rs) && Ascending(KeysOf(rs))
    ensures Wf(Pairs(KeysOf(rs), ValsOf(rs))) <==> Distinct(KeysOf(ts))
    ensures forall t :: t in ts <==> t in rs
  {
    SameKeys(ts, rs);
    DistinctCount(KeysOf(ts));
    DistinctCount(KeysOf(rs));
    assert forall t :: t in ts <==> t in multiset(ts);
    assert forall t :: t in rs <==> t in multiset(rs);
  }

  function KeysOf(ts: seq<(Key, Val)>): seq<Key> {
    seq(|ts|, i requires 0 <= i < |ts| => ts[i].0)
  }

  function ValsOf(ts: seq<(Key, Val)>): seq<Val> {
    seq(|ts|, i requires 0 <= i < |ts| => ts[i].1)
  }

  lemma TakeOut<T>(rs: seq<T>, i: nat)
    requires i < |rs|
    ensures multiset(rs) == multiset(rs[..i] + rs[i + 1..]) + multiset{rs[i]}
  {
    assert rs == rs[..i] + [rs[i]] + rs[i + 1..];
  }

  lemma TakeOutKey(rs: seq<(Key, Val)>, i: nat)
    requires i < |rs|
    ensures multiset(KeysOf(rs)) == multiset(KeysOf(rs[..i] + rs[i + 1..])) + multiset{rs[i].0}
  {
    TakeOut(KeysOf(rs), i);
    assert KeysOf(rs[..i] + rs[i + 1..]) == KeysOf(rs)[..i] + KeysOf(rs)[i + 1..];
  }

  /** Taking the same pair out of both leaves the same pairs. */
  lemma SameRest<T>(ts: seq<T>, rs: seq<T>, i: nat)
    requires multiset(ts) == multiset(rs) && ts != [] && i < |rs| && rs[i] == ts[0]
    ensures multiset(ts[..0] + ts[1..]) == multiset(rs[..i] + rs[i + 1..])
  {
    TakeOut(ts, 0);
    TakeOut(rs, i);
    var a, b, x := multiset(ts[..0] + ts[1..]), multiset(rs[..i] + rs[i + 1..]), multiset{ts[0]};
    assert a + x == b + x;
    assert a == (a + x) - x && b == (b + x) - x;
  }

  lemma FindPair<T>(ts: seq<T>, rs: seq<T>) returns (i: nat)
    requires multiset(ts) == multiset(rs) && ts != []
    ensures i < |rs| && rs[i] == ts[0]
  {
    assert ts[0] in multiset(rs);
    i :| 0 <= i < |rs| && rs[i] == ts[0];
  }

  lemma {:induction false} SameKeys(ts: seq<(Key, Val)>, rs: seq<(Key, Val)>)
    requires multiset(ts) == multiset(rs)
    ensures multiset(KeysOf(ts)) == multiset(KeysOf(rs))
  {
    if ts == [] {
      assert |multiset(rs)| == 0;
      assert rs == [];
    } else {
      var i := FindPair(ts, rs);
      SameRest(ts, rs, i);
      SameKeys(ts[..0] + ts[1..], rs[..i] + rs[i + 1..]);
      TakeOutKey(ts, 0);
      TakeOutKey(rs, i);
    }
  }
}
