/**
 The notification collector (pon_gc.c): a tri-colour mark in which the roots
 notify their references and so on until the queue of grey nodes is empty,
 and a sweep that frees the nodes left white.  A node is named by its id.
 */
module PonGc {
  type Id = nat

  datatype Color = White | Gray | Black

  type Refs = map<Id, seq<Id>>

  // ----- reachability

  /** p is a path of references between nodes of the heap. */
  predicate Path(refs: Refs, p: seq<Id>) {
    && p != []
    && (forall i :: 0 <= i < |p| ==> p[i] in refs)
    && (forall i :: 0 < i < |p| ==> p[i] in refs[p[i - 1]])
  }

  ghost predicate Reachable(refs: Refs, roots: seq<Id>, x: Id) {
    exists p :: Path(refs, p) && p[0] in roots && p[|p| - 1] == x
  }

  predicate AllWhite(color: map<Id, Color>, p: seq<Id>) {
    forall i :: 0 <= i < |p| ==> p[i] in color && color[p[i]].White?
  }

  /** x is reached from a root through white nodes only. */
  ghost predicate WhiteReachable(refs: Refs, roots: seq<Id>, color: map<Id, Color>, x: Id) {
    exists p :: Path(refs, p) && p[0] in roots && p[|p| - 1] == x && AllWhite(color, p)
  }

  /** What a mark leaves coloured. */
  ghost predicate Survives(refs: Refs, roots: seq<Id>, color: map<Id, Color>, x: Id)
    requires x in color
  {
    !color[x].White? || WhiteReachable(refs, roots, color, x)
  }

  /** No black node refers to a white one. */
  predicate TriColor(refs: Refs, color: map<Id, Color>) {
    forall n, i :: n in refs && n in color && color[n].Black? && 0 <= i < |refs[n]| ==>
      refs[n][i] in color && !color[refs[n][i]].White?
  }

  predicate NoDangling(refs: Refs, roots: seq<Id>) {
    && (forall i :: 0 <= i < |roots| ==> roots[i] in refs)
    && (forall n, i :: n in refs && 0 <= i < |refs[n]| ==> refs[n][i] in refs)
  }

  lemma PathExtends(refs: Refs, p: seq<Id>, x: Id)
    requires Path(refs, p) && x in refs && x in refs[p[|p| - 1]]
    ensures Path(refs, p + [x])
  {
    var q := p + [x];
    forall i | 0 < i < |q|
      ensures q[i] in refs[q[i - 1]]
    {
      if i < |p| {
        assert p[i] in refs[p[i - 1]];
      }
    }
  }

  lemma WhiteReachableExtends(refs: Refs, roots: seq<Id>, color: map<Id, Color>, n: Id, x: Id)
    requires WhiteReachable(refs, roots, color, n)
    requires x in refs && n in refs && x in refs[n] && x in color && color[x].White?
    ensures WhiteReachable(refs, roots, color, x)
  {
    var p :| Path(refs, p) && p[0] in roots && p[|p| - 1] == n && AllWhite(color, p);
    PathExtends(refs, p, x);
    assert (p + [x])[0] in roots;
  }

  /** A set of nodes that holds the white roots and is closed under references to
      white nodes holds everything white-reachable. */
  lemma {:induction false} ClosedHoldsPath(refs: Refs, color: map<Id, Color>, s: set<Id>, p: seq<Id>, k: nat)
    requires Path(refs, p) && AllWhite(color, p) && p[0] in s && k < |p|
    requires forall n, i :: n in s && n in refs && 0 <= i < |refs[n]| && refs[n][i] in color && color[refs[n][i]].White? ==> refs[n][i] in s
    ensures p[k] in s
  {
    if k > 0 {
      ClosedHoldsPath(refs, color, s, p, k - 1);
      assert p[k] in refs[p[k - 1]];
    }
  }

  /** With every node white, what survives a mark is exactly what the roots reach. */
  lemma SurvivorsFromWhite(refs: Refs, roots: seq<Id>, color: map<Id, Color>, x: Id)
    requires color.Keys == refs.Keys && x in color && forall n :: n in color ==> color[n].White?
    ensures Survives(refs, roots, color, x) <==> Reachable(refs, roots, x)
  {
    forall p | Path(refs, p)
      ensures AllWhite(color, p)
    {
    }
  }

  lemma {:induction false} PathSurvives(refs: Refs, roots: seq<Id>, color: map<Id, Color>, p: seq<Id>, k: nat)
    requires color.Keys == refs.Keys && TriColor(refs, color) && NoGray(color)
    requires Path(refs, p) && p[0] in roots && k < |p|
    ensures Survives(refs, roots, color, p[k])
  {
    if k == 0 {
      if color[p[0]].White? {
        assert Path(refs, [p[0]]) && AllWhite(color, [p[0]]) && [p[0]][0] in roots;
      }
    } else {
      PathSurvives(refs, roots, color, p, k - 1);
      assert p[k] in refs[p[k - 1]];
      if color[p[k]].White? {
        var i :| 0 <= i < |refs[p[k - 1]]| && refs[p[k - 1]][i] == p[k];
        assert !color[p[k - 1]].Black?;
        WhiteReachableExtends(refs, roots, color, p[k - 1], p[k]);
      }
    }
  }

  /** While no black node refers to a white one, nothing reachable is collected. */
  lemma TriColorIsSafe(refs: Refs, roots: seq<Id>, color: map<Id, Color>, x: Id)
    requires color.Keys == refs.Keys && TriColor(refs, color) && NoGray(color)
    requires x in color && Reachable(refs, roots, x)
    ensures Survives(refs, roots, color, x)
  {
    var p :| Path(refs, p) && p[0] in roots && p[|p| - 1] == x;
    PathSurvives(refs, roots, color, p, |p| - 1);
  }

  /** Adding a reference keeps that exactly when it is not from black to white. */
  lemma AddRefKeepsTriColorIff(refs: Refs, color: map<Id, Color>, from: Id, to: Id)
    requires color.Keys == refs.Keys && TriColor(refs, color) && from in refs && to in refs
    ensures TriColor(refs[from := refs[from] + [to]], color) <==> !(color[from].Black? && color[to].White?)
  {
    var refs' := refs[from := refs[from] + [to]];
    assert refs'[from][|refs[from]|] == to;
    if !(color[from].Black? && color[to].White?) {
      forall n, i | n in refs' && n in color && color[n].Black? && 0 <= i < |refs'[n]|
        ensures refs'[n][i] in color && !color[refs'[n][i]].White?
      {
        if n == from && i == |refs[from]| {
        } else {
          assert refs'[n][i] == refs[n][i];
        }
      }
    }
  }

  /** Without it a reachable node can be lost: a mark, a new reference from the black
      root to a white node, and a second mark that does not visit the root again. */
  lemma BlackToWhiteLoses()
    ensures var refs, color := map[0 := [1], 1 := []], map[0 := Black, 1 := White];
            Reachable(refs, [0], 1) && !Survives(refs, [0], color, 1)
  {
    var refs: Refs, color := map[0 := [1], 1 := []], map[0 := Black, 1 := White];
    assert Path(refs, [0, 1]);
    assert [0, 1][0] in [0] && [0, 1][1] == 1;
  }

  // ----- removing a reference

  /** The references left when the first occurrence of `to` is taken out. */
  function Without(refs: seq<Id>, to: Id): (r: seq<Id>)
    ensures to in refs ==> multiset(r) == multiset(refs) - multiset{to}
    ensures to !in refs ==> r == refs
  {
    if refs == [] then []
    else if refs[0] == to then
      assert refs == [to] + refs[1..];
      refs[1..]
    else
      assert refs == [refs[0]] + refs[1..];
      [refs[0]] + Without(refs[1..], to)
  }

  /** What the source leaves: the shift starts at index 1 wherever `to` was found. */
  function RemoveRef(refs: seq<Id>, to: Id): seq<Id> {
    if to !in refs then refs
    else if |refs| == 1 then []
    else refs[..1] + refs[2..]
  }

  lemma {:induction false} WithoutAt(refs: seq<Id>, to: Id, k: nat)
    requires k < |refs| && refs[k] == to && forall j :: 0 <= j < k ==> refs[j] != to
    ensures Without(refs, to) == refs[..k] + refs[k + 1..]
  {
    if k > 0 {
      WithoutAt(refs[1..], to, k - 1);
      ConsAround(refs, k);
    } else {
      assert refs[..0] == [] && [] + refs[1..] == refs[1..];
    }
  }

  lemma ConsAround(refs: seq<Id>, k: nat)
    requires 0 < k < |refs|
    ensures [refs[0]] + (refs[1..][..k - 1] + refs[1..][k..]) == refs[..k] + refs[k + 1..]
  {
    assert [refs[0]] + refs[1..][..k - 1] == refs[..k];
    assert refs[1..][k..] == refs[k + 1..];
  }

  lemma FirstAt(refs: seq<Id>, to: Id, n: nat) returns (k: nat)
    requires n < |refs| && refs[n] == to
    ensures k <= n && refs[k] == to && forall j :: 0 <= j < k ==> refs[j] != to
  {
    k := 0;
    while refs[k] != to
      invariant k <= n && forall j :: 0 <= j < k ==> refs[j] != to
      decreases n - k
    {
      k := k + 1;
    }
  }

  lemma WithoutFirst(refs: seq<Id>, to: Id) returns (k: nat)
    requires to in refs
    ensures k < |refs| && refs[k] == to && to !in refs[..k]
    ensures Without(refs, to) == refs[..k] + refs[k + 1..]
  {
    var n :| 0 <= n < |refs| && refs[n] == to;
    k := FirstAt(refs, to, n);
    WithoutAt(refs, to, k);
  }

  /** The source takes out `to` exactly when it is the only reference or the second. */
  lemma RemoveRefCorrectIff(refs: seq<Id>, to: Id)
    requires to in refs
    ensures RemoveRef(refs, to) == Without(refs, to) <==> |refs| == 1 || refs[1] == to
  {
    var k := WithoutFirst(refs, to);
    if |refs| > 1 {
      var got, want := RemoveRef(refs, to), Without(refs, to);
      if k == 0 {
        assert got[0] == to && want[0] == refs[1];
        assert refs[1] == to ==> got == want;
      } else if k > 1 {
        assert got[k - 1] == refs[k] && want[k - 1] == refs[k - 1];
        assert refs[k - 1] in refs[..k] && refs[1] in refs[..k];
      }
    }
  }

  /** Removing the first of two references removes the second instead: the node that was
      to be dropped stays reachable, and the other one is not reachable any more. */
  lemma RemoveRefDropsOther()
    ensures RemoveRef([1, 2], 1) == [1] && Without([1, 2], 1) == [2]
    ensures var refs: Refs := map[0 := RemoveRef([1, 2], 1), 1 := [], 2 := []];
      Reachable(refs, [0], 1) && !Reachable(refs, [0], 2)
  {
    assert [1, 2][..1] + [1, 2][2..] == [1];
    WithoutAt([1, 2], 1, 0);
    assert [1, 2][..0] + [1, 2][1..] == [2];
    var refs: Refs := map[0 := [1], 1 := [], 2 := []];
    assert Path(refs, [0, 1]) && [0, 1][0] in [0] && [0, 1][|[0, 1]| - 1] == 1;
    forall p | Path(refs, p) && p[0] in [0] ensures p[|p| - 1] != 2 {
      if |p| > 1 {
        assert p[|p| - 1] in refs[p[|p| - 2]];
      }
    }
  }

  // ----- the collector

  function Coloured(color: map<Id, Color>): set<Id> {
    set n | n in color && !color[n].White?
  }

  function Bytes(size: map<Id, nat>, ns: seq<Id>): nat
    requires forall i :: 0 <= i < |ns| ==> ns[i] in size
  {
    if ns == [] then 0 else Bytes(size, ns[..|ns| - 1]) + size[ns[|ns| - 1]]
  }

  predicate Referred(refs: Refs, n: Id) {
    exists m :: m in refs && n in refs[m]
  }

  predicate NoGray(color: map<Id, Color>) {
    forall n :: n in color ==> !color[n].Gray?
  }

  lemma {:induction false} SubsetCounts(a: set<Id>, b: set<Id>)
    requires a <= b
    ensures |a| <= |b|
  {
    if a != {} {
      var x :| x in a;
      SubsetCounts(a - {x}, b - {x});
    }
  }

  /** The queue holds, once each, the grey nodes other than the one being propagated. */
  ghost predicate QueueOk(color: map<Id, Color>, gray: seq<Id>, busy: set<Id>) {
    && (forall i, j :: 0 <= i < j < |gray| ==> gray[i] != gray[j])
    && (forall n :: n in gray <==> n in color && color[n].Gray? && n !in busy)
  }

  lemma Enqueued(color: map<Id, Color>, gray: seq<Id>, busy: set<Id>, n: Id)
    requires QueueOk(color, gray, busy) && n in color && color[n].White? && n !in busy
    ensures QueueOk(color[n := Gray], gray + [n], busy)
    ensures |Coloured(color[n := Gray])| == |Coloured(color)| + 1
  {
    assert Coloured(color[n := Gray]) == Coloured(color) + {n};
  }

  lemma Dequeued(color: map<Id, Color>, gray: seq<Id>)
    requires QueueOk(color, gray, {}) && gray != []
    ensures gray[0] in color && color[gray[0]].Gray? && QueueOk(color, gray[1..], {gray[0]})
  {
    assert gray[0] in gray;
    assert gray == [gray[0]] + gray[1..];
  }

  lemma Blackened(color: map<Id, Color>, gray: seq<Id>, n: Id)
    requires QueueOk(color, gray, {n}) && n in color && color[n].Gray?
    ensures QueueOk(color[n := Black], gray, {})
    ensures Coloured(color[n := Black]) == Coloured(color)
  {
  }

  /** The colours after node n has notified the references in rs. */
  function Notified(color: map<Id, Color>, rs: seq<Id>): (c: map<Id, Color>)
    ensures c.Keys == color.Keys
    ensures forall x :: x in color ==> c[x] == if color[x].White? && x in rs then Gray else color[x]
  {
    map x | x in color :: if color[x].White? && x in rs then Gray else color[x]
  }

  lemma NotifiedOneMore(color: map<Id, Color>, rs: seq<Id>, i: nat)
    requires i < |rs| && rs[i] in color
    ensures Notified(color, rs[..i + 1]) ==
            if Notified(color, rs[..i])[rs[i]].White? then Notified(color, rs[..i])[rs[i] := Gray] else Notified(color, rs[..i])
  {
    assert rs[..i + 1] == rs[..i] + [rs[i]];
  }

  /** Part way through a mark that started from the colours c0. */
  ghost predicate Marking(refs: Refs, roots: seq<Id>, c0: map<Id, Color>, color: map<Id, Color>) {
    && color.Keys == c0.Keys == refs.Keys
    && (forall x :: x in c0 ==> !c0[x].Gray?)
    && (forall x :: x in c0 && !c0[x].White? ==> color[x] == c0[x])
    && (forall x :: x in c0 && c0[x].White? && !color[x].White? ==> WhiteReachable(refs, roots, c0, x))
    && (forall x, i :: x in c0 && c0[x].White? && color[x].Black? && 0 <= i < |refs[x]| ==>
          refs[x][i] in color && !color[refs[x][i]].White?)
  }

  lemma RootMarks(refs: Refs, roots: seq<Id>, c0: map<Id, Color>, color: map<Id, Color>, r: Id)
    requires Marking(refs, roots, c0, color) && r in roots && r in color && color[r].White?
    ensures Marking(refs, roots, c0, color[r := Gray])
  {
    assert c0[r].White?;
    assert Path(refs, [r]) && AllWhite(c0, [r]) && [r][0] in roots;
  }

  lemma PropagationMarks(refs: Refs, roots: seq<Id>, c0: map<Id, Color>, color: map<Id, Color>, n: Id)
    requires Marking(refs, roots, c0, color) && NoDangling(refs, roots) && n in color && color[n].Gray?
    ensures Marking(refs, roots, c0, Notified(color, refs[n])[n := Black])
  {
    var color' := Notified(color, refs[n])[n := Black];
    forall x | x in c0 && c0[x].White? && !color'[x].White?
      ensures WhiteReachable(refs, roots, c0, x)
    {
      if color[x].White? {
        WhiteReachableExtends(refs, roots, c0, n, x);
      }
    }
  }

  /** With the roots coloured and no grey node left, the mark is complete. */
  lemma MarkedIsSurvivors(refs: Refs, roots: seq<Id>, c0: map<Id, Color>, color: map<Id, Color>, x: Id)
    requires Marking(refs, roots, c0, color) && x in color
    requires NoGray(color)
    requires forall i :: 0 <= i < |roots| ==> roots[i] in color && !color[roots[i]].White?
    ensures !color[x].White? <==> Survives(refs, roots, c0, x)
  {
    if WhiteReachable(refs, roots, c0, x) {
      var p :| Path(refs, p) && p[0] in roots && p[|p| - 1] == x && AllWhite(c0, p);
      var s := set n | n in color && c0[n].White? && !color[n].White?;
      forall n, k | n in s && n in refs && 0 <= k < |refs[n]| && refs[n][k] in c0 && c0[refs[n][k]].White?
        ensures refs[n][k] in s
      {
        assert color[n].Black?;
      }
      ClosedHoldsPath(refs, c0, s, p, |p| - 1);
    }
  }

  lemma MarkedAll(refs: Refs, roots: seq<Id>, c0: map<Id, Color>, color: map<Id, Color>, gray: seq<Id>)
    requires Marking(refs, roots, c0, color) && QueueOk(color, gray, {}) && gray == []
    requires forall i :: 0 <= i < |roots| ==> roots[i] in Coloured(color)
    ensures NoGray(color)
    ensures forall x :: x in color ==> (x in Coloured(color) <==> Survives(refs, roots, c0, x))
  {
    forall x | x in color
      ensures x in Coloured(color) <==> Survives(refs, roots, c0, x)
    {
      MarkedIsSurvivors(refs, roots, c0, color, x);
    }
  }

  /** The source's shift loop, on a copy of the references. */
  method ShiftOut(refs: seq<Id>, to: Id) returns (rs: seq<Id>)
    ensures rs == RemoveRef(refs, to)
  {
    var found := false;
    rs := refs;
    for i := 0 to |rs|
      invariant found <==> to in rs[..i]
    {
      assert rs[..i + 1] == rs[..i] + [rs[i]];
      found := found || rs[i] == to;
    }
    assert rs[..|rs|] == rs;
    if found {
      var n := |rs|;
      var i := 1;
      while i < n - 1
        invariant 1 <= i && (n > 1 ==> i <= n - 1) && |rs| == n
        invariant forall j :: 0 <= j < n ==> rs[j] == refs[if 1 <= j < i then j + 1 else j]
      {
        rs := rs[i := rs[i + 1]];
        i := i + 1;
      }
      rs := rs[..n - 1];
    }
  }

  // ----- sweep

  function Kept(color: map<Id, Color>, ns: seq<Id>): (r: seq<Id>)
    requires forall i :: 0 <= i < |ns| ==> ns[i] in color
    ensures forall n :: n in r <==> n in ns && n in Coloured(color)
  {
    if ns == [] then []
    else
      var n, rest := ns[|ns| - 1], Kept(color, ns[..|ns| - 1]);
      assert ns == ns[..|ns| - 1] + [n];
      if color[n].White? then rest else rest + [n]
  }

  function Dead(color: map<Id, Color>, ns: seq<Id>): (r: seq<Id>)
    requires forall i :: 0 <= i < |ns| ==> ns[i] in color
    ensures forall n :: n in r <==> n in ns && n !in Coloured(color)
    ensures forall i :: 0 <= i < |r| ==> r[i] in color
    ensures |r| + |Kept(color, ns)| == |ns|
  {
    if ns == [] then []
    else
      var n, rest := ns[|ns| - 1], Dead(color, ns[..|ns| - 1]);
      assert ns == ns[..|ns| - 1] + [n];
      if color[n].White? then rest + [n] else rest
  }

  lemma {:induction false} KeptDistinct(color: map<Id, Color>, ns: seq<Id>)
    requires forall i :: 0 <= i < |ns| ==> ns[i] in color
    requires forall i, j :: 0 <= i < j < |ns| ==> ns[i] != ns[j]
    ensures forall i, j :: 0 <= i < j < |Kept(color, ns)| ==> Kept(color, ns)[i] != Kept(color, ns)[j]
  {
    if ns != [] {
      var front := ns[..|ns| - 1];
      KeptDistinct(color, front);
      assert ns[|ns| - 1] !in front;
    }
  }

  datatype Swept = Swept(kept: seq<Id>, color: map<Id, Color>, refs: Refs, size: map<Id, nat>, dead: nat, bytes: nat)

  /** The heap after the nodes in done have been visited by the sweep. */
  function SweepOf(color: map<Id, Color>, refs: Refs, size: map<Id, nat>, done: seq<Id>): Swept
    requires color.Keys == refs.Keys == size.Keys && forall i :: 0 <= i < |done| ==> done[i] in color
  {
    if done == [] then Swept([], color, refs, size, 0, 0)
    else
      var n := done[|done| - 1];
      var p := SweepOf(color, refs, size, done[..|done| - 1]);
      if color[n].White?
      then p.(color := p.color - {n}, refs := p.refs - {n}, size := p.size - {n}, dead := p.dead + 1, bytes := p.bytes + size[n])
      else p.(kept := p.kept + [n], color := p.color[n := White])
  }

  /** What the sweep leaves, node by node. */
  lemma {:induction false} SweepMeaning(color: map<Id, Color>, refs: Refs, size: map<Id, nat>, done: seq<Id>)
    requires color.Keys == refs.Keys == size.Keys && (forall i :: 0 <= i < |done| ==> done[i] in color)
    ensures var s := SweepOf(color, refs, size, done);
            && s.color.Keys == s.refs.Keys == s.size.Keys
            && (forall n :: n in s.refs <==> n in refs && (n in done ==> n in Coloured(color)))
            && (forall n :: n in s.refs ==> s.refs[n] == refs[n] && s.size[n] == size[n])
            && (forall n :: n in s.refs ==> s.color[n] == if n in done then White else color[n])
  {
    if done != [] {
      var front, n := done[..|done| - 1], done[|done| - 1];
      SweepMeaning(color, refs, size, front);
      assert forall m :: m in done <==> m in front || m == n by {
        assert done == front + [n];
      }
    }
  }

  lemma {:induction false} SweepCounts(color: map<Id, Color>, refs: Refs, size: map<Id, nat>, done: seq<Id>)
    requires color.Keys == refs.Keys == size.Keys && (forall i :: 0 <= i < |done| ==> done[i] in color)
    ensures var s := SweepOf(color, refs, size, done);
            s.kept == Kept(color, done) && s.dead == |Dead(color, done)| && s.bytes == Bytes(size, Dead(color, done))
  {
    if done != [] {
      var front, n := done[..|done| - 1], done[|done| - 1];
      SweepCounts(color, refs, size, front);
      if color[n].White? {
        assert (Dead(color, front) + [n])[..|Dead(color, front)|] == Dead(color, front);
      }
    }
  }

  lemma SweepNext(color: map<Id, Color>, refs: Refs, size: map<Id, nat>, nodes: seq<Id>, i: nat)
    requires color.Keys == refs.Keys == size.Keys && (forall j :: 0 <= j < |nodes| ==> nodes[j] in color)
    requires forall j, k :: 0 <= j < k < |nodes| ==> nodes[j] != nodes[k]
    requires i < |nodes|
    ensures var n, p := nodes[i], SweepOf(color, refs, size, nodes[..i]);
            && n in p.color && p.color[n] == color[n] && n in p.size && p.size[n] == size[n]
            && SweepOf(color, refs, size, nodes[..i + 1]) ==
                 if color[n].White?
                 then Swept(p.kept, p.color - {n}, p.refs - {n}, p.size - {n}, p.dead + 1, p.bytes + size[n])
                 else Swept(p.kept + [n], p.color[n := White], p.refs, p.size, p.dead, p.bytes)
  {
    assert nodes[..i + 1][..i] == nodes[..i] && nodes[i] !in nodes[..i];
    SweepMeaning(color, refs, size, nodes[..i]);
  }

  method SweepNodes(color: map<Id, Color>, refs: Refs, size: map<Id, nat>, nodes: seq<Id>) returns (s: Swept)
    requires color.Keys == refs.Keys == size.Keys && (forall j :: 0 <= j < |nodes| ==> nodes[j] in color)
    requires forall j, k :: 0 <= j < k < |nodes| ==> nodes[j] != nodes[k]
    ensures s == SweepOf(color, refs, size, nodes)
  {
    s := Swept([], color, refs, size, 0, 0);
    var i := 0;
    while i < |nodes|
      invariant 0 <= i <= |nodes| && s == SweepOf(color, refs, size, nodes[..i])
    {
      var n := nodes[i];
      SweepNext(color, refs, size, nodes, i);
      if s.color[n].White? {
        s := Swept(s.kept, s.color - {n}, s.refs - {n}, s.size - {n}, s.dead + 1, s.bytes + s.size[n]);
      } else {
        s := Swept(s.kept + [n], s.color[n := White], s.refs, s.size, s.dead, s.bytes);
      }
      i := i + 1;
    }
    assert nodes[..i] == nodes;
  }

  lemma SweepAll(color: map<Id, Color>, refs: Refs, size: map<Id, nat>, nodes: seq<Id>)
    requires color.Keys == refs.Keys == size.Keys && (forall i :: 0 <= i < |nodes| ==> nodes[i] in color)
    requires forall n :: n in refs ==> n in nodes
    ensures var s := SweepOf(color, refs, size, nodes);
            && s.kept == Kept(color, nodes)
            && s.refs == Surviving(refs, color) && s.color.Keys == s.refs.Keys == s.size.Keys && Coloured(s.color) == {}
  {
    SweepMeaning(color, refs, size, nodes);
    SweepCounts(color, refs, size, nodes);
  }

  function Surviving(refs: Refs, color: map<Id, Color>): Refs {
    map n | n in refs && n in Coloured(color) :: refs[n]
  }

  /** No root and no coloured node refers to a white node. */
  predicate Closed(refs: Refs, roots: seq<Id>, color: map<Id, Color>) {
    && (forall i :: 0 <= i < |roots| ==> roots[i] in Coloured(color))
    && (forall n, i :: n in refs && n in Coloured(color) && 0 <= i < |refs[n]| ==> refs[n][i] in Coloured(color))
  }

  /** After the nodes left white are gone, there is no dangling reference exactly when
      the colours were closed. */
  lemma SweptDanglesUnlessClosed(refs: Refs, roots: seq<Id>, color: map<Id, Color>)
    requires color.Keys == refs.Keys
    ensures NoDangling(Surviving(refs, color), roots) <==> Closed(refs, roots, color)
  {
    var swept := Surviving(refs, color);
    assert forall n :: n in swept <==> n in Coloured(color);
  }

  /** Whatever a black node refers to survives the mark. */
  ghost predicate BlackTargetsSurvive(refs: Refs, roots: seq<Id>, color: map<Id, Color>)
    requires color.Keys == refs.Keys
  {
    forall n, i :: n in refs && color[n].Black? && 0 <= i < |refs[n]| ==>
      refs[n][i] in color && Survives(refs, roots, color, refs[n][i])
  }

  /** The same for the black nodes that the roots reach. */
  ghost predicate ReachedBlackTargetsSurvive(refs: Refs, roots: seq<Id>, color: map<Id, Color>)
    requires color.Keys == refs.Keys
  {
    forall n, i :: n in refs && color[n].Black? && Reachable(refs, roots, n) && 0 <= i < |refs[n]| ==>
      refs[n][i] in color && Survives(refs, roots, color, refs[n][i])
  }

  /** A collection keeps everything the roots reach. */
  ghost predicate KeepsReachable(refs: Refs, roots: seq<Id>, color: map<Id, Color>)
    requires color.Keys == refs.Keys
  {
    forall x :: x in color && Reachable(refs, roots, x) ==> Survives(refs, roots, color, x)
  }

  lemma TriColorSurvives(refs: Refs, roots: seq<Id>, color: map<Id, Color>)
    requires color.Keys == refs.Keys && TriColor(refs, color)
    ensures BlackTargetsSurvive(refs, roots, color)
  {
  }

  lemma RootSurvives(refs: Refs, roots: seq<Id>, color: map<Id, Color>, r: Id)
    requires color.Keys == refs.Keys && r in roots && r in color
    ensures Survives(refs, roots, color, r)
  {
    assert Path(refs, [r]) && [r][0] in roots && (color[r].White? ==> AllWhite(color, [r]));
  }

  /** A survivor that was not black passes on to what it refers to. */
  lemma TargetSurvives(refs: Refs, roots: seq<Id>, color: map<Id, Color>, n: Id, x: Id)
    requires color.Keys == refs.Keys && n in refs && x in refs[n] && x in color && color[n].White?
    requires Survives(refs, roots, color, n)
    ensures Survives(refs, roots, color, x)
  {
    if color[x].White? {
      WhiteReachableExtends(refs, roots, color, n, x);
    }
  }

  /** A complete mark is closed exactly if what the black nodes referred to survives. */
  lemma MarkClosedIff(refs: Refs, roots: seq<Id>, c0: map<Id, Color>, color: map<Id, Color>)
    requires color.Keys == c0.Keys == refs.Keys && NoDangling(refs, roots) && NoGray(c0)
    requires forall x :: x in color ==> (x in Coloured(color) <==> Survives(refs, roots, c0, x))
    ensures Closed(refs, roots, color) <==> BlackTargetsSurvive(refs, roots, c0)
  {
    if Closed(refs, roots, color) {
      forall n, i | n in refs && c0[n].Black? && 0 <= i < |refs[n]|
        ensures refs[n][i] in c0 && Survives(refs, roots, c0, refs[n][i])
      {
        assert Survives(refs, roots, c0, n);
        assert refs[n][i] in Coloured(color);
      }
    }
    if BlackTargetsSurvive(refs, roots, c0) {
      forall i | 0 <= i < |roots| ensures roots[i] in Coloured(color) {
        RootSurvives(refs, roots, c0, roots[i]);
      }
      forall n, i | n in refs && n in Coloured(color) && 0 <= i < |refs[n]| ensures refs[n][i] in Coloured(color) {
        if c0[n].White? {
          TargetSurvives(refs, roots, c0, n, refs[n][i]);
        }
        assert Survives(refs, roots, c0, refs[n][i]);
      }
    }
  }

  lemma {:induction false} ReachedSurvives(refs: Refs, roots: seq<Id>, color: map<Id, Color>, p: seq<Id>, k: nat)
    requires color.Keys == refs.Keys && NoGray(color) && ReachedBlackTargetsSurvive(refs, roots, color)
    requires Path(refs, p) && p[0] in roots && k < |p|
    ensures Survives(refs, roots, color, p[k])
  {
    if k == 0 {
      RootSurvives(refs, roots, color, p[0]);
    } else {
      var n := p[k - 1];
      ReachedSurvives(refs, roots, color, p, k - 1);
      assert p[k] in refs[n];
      if color[n].White? {
        TargetSurvives(refs, roots, color, n, p[k]);
      } else {
        PrefixReaches(refs, roots, p, k - 1);
        var i :| 0 <= i < |refs[n]| && refs[n][i] == p[k];
      }
    }
  }

  lemma PrefixReaches(refs: Refs, roots: seq<Id>, p: seq<Id>, k: nat)
    requires Path(refs, p) && p[0] in roots && k < |p|
    ensures Reachable(refs, roots, p[k])
  {
    var q := p[..k + 1];
    assert Path(refs, q) && q[0] in roots && q[|q| - 1] == p[k];
  }

  lemma ReachableExtends(refs: Refs, roots: seq<Id>, n: Id, x: Id)
    requires Reachable(refs, roots, n) && n in refs && x in refs && x in refs[n]
    ensures Reachable(refs, roots, x)
  {
    var p :| Path(refs, p) && p[0] in roots && p[|p| - 1] == n;
    PathExtends(refs, p, x);
    assert (p + [x])[0] in roots && (p + [x])[|p + [x]| - 1] == x;
  }

  /** Nothing reachable is freed exactly if whatever a reachable black node refers to
      survives. */
  lemma KeepsReachableIff(refs: Refs, roots: seq<Id>, color: map<Id, Color>)
    requires color.Keys == refs.Keys && NoDangling(refs, roots) && NoGray(color)
    ensures KeepsReachable(refs, roots, color) <==> ReachedBlackTargetsSurvive(refs, roots, color)
  {
    if KeepsReachable(refs, roots, color) {
      forall n, i | n in refs && color[n].Black? && Reachable(refs, roots, n) && 0 <= i < |refs[n]|
        ensures refs[n][i] in color && Survives(refs, roots, color, refs[n][i])
      {
        ReachableExtends(refs, roots, n, refs[n][i]);
      }
    }
    if ReachedBlackTargetsSurvive(refs, roots, color) {
      forall x | x in color && Reachable(refs, roots, x) ensures Survives(refs, roots, color, x) {
        var p :| Path(refs, p) && p[0] in roots && p[|p| - 1] == x;
        ReachedSurvives(refs, roots, color, p, |p| - 1);
      }
    }
  }

  function Whitened(color: map<Id, Color>): map<Id, Color> {
    map n | n in color :: White
  }

  lemma WhitenedClean(color: map<Id, Color>)
    ensures Whitened(color).Keys == color.Keys && |Coloured(Whitened(color))| == 0 && NoGray(Whitened(color))
  {
    assert Coloured(Whitened(color)) == {};
  }

  /** The list has every node once. */
  ghost predicate ListOk(nodes: seq<Id>, refs: Refs, size: map<Id, nat>, nextId: nat) {
    && (forall i, j :: 0 <= i < j < |nodes| ==> nodes[i] != nodes[j])
    && (forall n :: n in nodes <==> n in refs)
    && refs.Keys == size.Keys
    && (forall n :: n in refs ==> n < nextId)
  }

  lemma {:induction false} KeptIn(color: map<Id, Color>, ns: seq<Id>, n: Id)
    requires forall i :: 0 <= i < |ns| ==> ns[i] in color
    ensures n in Kept(color, ns) <==> n in ns && n in Coloured(color)
  {
    if ns != [] {
      var front, x := ns[..|ns| - 1], ns[|ns| - 1];
      KeptIn(color, front, n);
      assert ns == front + [x];
    }
  }

  lemma TakenOut(ns: seq<Id>, k: nat)
    requires k < |ns| && forall i, j :: 0 <= i < j < |ns| ==> ns[i] != ns[j]
    ensures var r := ns[..k] + ns[k + 1..]; forall i, j :: 0 <= i < j < |r| ==> r[i] != r[j]
  {
    var r := ns[..k] + ns[k + 1..];
    assert forall i :: 0 <= i < |r| ==> r[i] == ns[if i < k then i else i + 1];
  }

  lemma TakenOutIn(ns: seq<Id>, k: nat, m: Id)
    requires k < |ns| && forall i, j :: 0 <= i < j < |ns| ==> ns[i] != ns[j]
    ensures m in ns[..k] + ns[k + 1..] <==> m in ns && m != ns[k]
  {
    var r := ns[..k] + ns[k + 1..];
    if m in ns && m != ns[k] {
      var i :| 0 <= i < |ns| && ns[i] == m;
      assert r[if i < k then i else i - 1] == m;
    }
  }

  lemma WithoutDistinct(ns: seq<Id>, n: Id)
    requires n in ns && forall i, j :: 0 <= i < j < |ns| ==> ns[i] != ns[j]
    ensures forall i, j :: 0 <= i < j < |Without(ns, n)| ==> Without(ns, n)[i] != Without(ns, n)[j]
  {
    var k := WithoutFirst(ns, n);
    TakenOut(ns, k);
  }

  lemma WithoutIn(ns: seq<Id>, n: Id, m: Id)
    requires n in ns && forall i, j :: 0 <= i < j < |ns| ==> ns[i] != ns[j]
    ensures m in Without(ns, n) <==> m in ns && m != n
  {
    var k := WithoutFirst(ns, n);
    TakenOutIn(ns, k, m);
  }

  lemma FreedList(nodes: seq<Id>, refs: Refs, size: map<Id, nat>, nextId: nat, n: Id)
    requires ListOk(nodes, refs, size, nextId) && n in nodes
    ensures ListOk(Without(nodes, n), refs - {n}, size - {n}, nextId)
  {
    WithoutDistinct(nodes, n);
    forall m ensures m in Without(nodes, n) <==> m in refs - {n} {
      WithoutIn(nodes, n, m);
    }
  }

  lemma FreedDangles(refs: Refs, roots: seq<Id>, n: Id)
    requires NoDangling(refs, roots) && n in refs
    ensures NoDangling(refs - {n}, roots) <==> n !in roots && forall m :: m in refs - {n} ==> n !in refs[m]
  {
    var refs' := refs - {n};
    if NoDangling(refs', roots) {
      forall m | m in refs' ensures n !in refs[m] {
        assert forall i :: 0 <= i < |refs'[m]| ==> refs'[m][i] in refs';
      }
    }
  }

  lemma FreedCount(color: map<Id, Color>, n: Id)
    requires n in color
    ensures |Coloured(color - {n})| == |Coloured(color)| - if color[n].White? then 0 else 1
  {
    if color[n].White? {
      assert Coloured(color - {n}) == Coloured(color);
    } else {
      assert Coloured(color - {n}) == Coloured(color) - {n};
    }
  }

  lemma FreedIff(nodes: seq<Id>, color: map<Id, Color>, refs: Refs, size: map<Id, nat>, roots: seq<Id>, nextId: nat, n: Id)
      returns (sound: bool)
    requires ListOk(nodes, refs, size, nextId) && NoDangling(refs, roots) && color.Keys == refs.Keys && n in color && NoGray(color)
    ensures ListOk(Without(nodes, n), refs - {n}, size - {n}, nextId) && NoGray(color - {n}) && (color - {n}).Keys == (refs - {n}).Keys
    ensures sound <==> NoDangling(refs - {n}, roots) && |Coloured(color - {n})| == |Coloured(color)|
    ensures sound <==> color[n].White? && n !in roots && !Referred(refs - {n}, n)
  {
    FreedList(nodes, refs, size, nextId, n);
    FreedDangles(refs, roots, n);
    FreedCount(color, n);
    sound := color[n].White? && n !in roots && !Referred(refs - {n}, n);
  }

  lemma SweptList(c0: map<Id, Color>, r0: Refs, s0: map<Id, nat>, ns: seq<Id>, nextId: nat)
    requires c0.Keys == r0.Keys && ListOk(ns, r0, s0, nextId)
    ensures var s := SweepOf(c0, r0, s0, ns); ListOk(s.kept, s.refs, s.size, nextId)
  {
    SweepAll(c0, r0, s0, ns);
    KeptDistinct(c0, ns);
    forall n ensures n in Kept(c0, ns) <==> n in Surviving(r0, c0) {
      KeptIn(c0, ns, n);
    }
  }

  lemma SweptClean(c0: map<Id, Color>, r0: Refs, s0: map<Id, nat>, ns: seq<Id>)
    requires c0.Keys == r0.Keys == s0.Keys && forall n :: n in ns <==> n in r0
    ensures var s := SweepOf(c0, r0, s0, ns);
            && s.color.Keys == s.refs.Keys && |Coloured(s.color)| == 0 && NoGray(s.color) && s.refs == Surviving(r0, c0)
  {
    SweepAll(c0, r0, s0, ns);
    var s := SweepOf(c0, r0, s0, ns);
    assert forall n :: n in s.color ==> n !in Coloured(s.color);
  }

  class PonGcState {
    var nodes: seq<Id>            // the list of all nodes, newest first
    var color: map<Id, Color>
    var refs: Refs
    var size: map<Id, nat>
    var roots: seq<Id>
    var gray: seq<Id>             // the queue of grey nodes, oldest first
    var nextId: nat
    var liveNodes: nat
    var deadNodes: nat
    var bytesFreed: nat
    var notificationsSent: nat
    var scanCount: nat
    var cycles: nat

    ghost predicate Heap()
      reads this`nodes, this`refs, this`size, this`roots, this`nextId
    {
      ListOk(nodes, refs, size, nextId) && NoDangling(refs, roots)
    }

    /** Between calls the queue is empty: only a mark fills it, and it drains it. */
    ghost predicate Valid()
      reads this
    {
      && Heap()
      && color.Keys == refs.Keys && liveNodes == |Coloured(color)|
      && gray == [] && NoGray(color)
    }

    constructor ()
      ensures Valid() && nodes == [] && roots == []
    {
      nodes, color, refs, size, roots, gray := [], map[], map[], map[], [], [];
      nextId, liveNodes, deadNodes, bytesFreed := 0, 0, 0, 0;
      notificationsSent, scanCount, cycles := 0, 0, 0;
    }

    method NodeCreate(dataSize: nat) returns (id: Id)
      requires Valid()
      modifies this`nodes, this`color, this`refs, this`size, this`nextId
      ensures Valid() && id == old(nextId) && id !in old(color)
      ensures nodes == [id] + old(nodes) && color == old(color)[id := White]
      ensures refs == old(refs)[id := []] && size == old(size)[id := dataSize]
    {
      id := nextId;
      nextId := nextId + 1;
      nodes := [id] + nodes;
      color := color[id := White];
      refs := refs[id := []];
      size := size[id := dataSize];
      assert id !in old(nodes);
      assert Coloured(color) == Coloured(old(color));
    }

    method AddRef(from: Id, to: Id)
      requires Valid() && from in color && to in color
      modifies this`refs
      ensures Valid() && refs == old(refs)[from := old(refs)[from] + [to]]
    {
      refs := refs[from := refs[from] + [to]];
    }

    method AddRoot(root: Id)
      requires Valid() && root in color
      modifies this`roots
      ensures Valid() && roots == old(roots) + [root]
    {
      roots := roots + [root];
    }

    method RemoveReference(from: Id, to: Id)
      requires Valid() && from in color
      modifies this`refs
      ensures Valid() && refs == old(refs)[from := RemoveRef(old(refs)[from], to)]
    {
      var rs := ShiftOut(refs[from], to);
      refs := refs[from := rs];
    }

    /** pon_gc_node_free, outside of a sweep: it looks neither at the roots and references
        nor at the colour, and is right exactly if the node is white, not a root, and no
        other node refers to it. */
    method NodeFree(n: Id)
      requires Valid() && n in color
      modifies this`nodes, this`color, this`refs, this`size
      ensures nodes == Without(old(nodes), n) && color == old(color) - {n} && refs == old(refs) - {n} && size == old(size) - {n}
      ensures Valid() <==> old(color)[n].White? && n !in roots && !Referred(refs, n)
    {
      ghost var sound := FreedIff(nodes, color, refs, size, roots, nextId, n);
      DropNode(n, sound);
    }

    method DropNode(n: Id, ghost sound: bool)
      requires n in nodes && gray == [] && ListOk(Without(nodes, n), refs - {n}, size - {n}, nextId)
      requires NoGray(color - {n}) && (color - {n}).Keys == (refs - {n}).Keys
      requires sound <==> NoDangling(refs - {n}, roots) && |Coloured(color - {n})| == liveNodes
      modifies this`nodes, this`color, this`refs, this`size
      ensures nodes == Without(old(nodes), n) && color == old(color) - {n} && refs == old(refs) - {n} && size == old(size) - {n}
      ensures Valid() <==> sound
    {
      Unlink(n);
      color, refs, size := color - {n}, refs - {n}, size - {n};
    }

    method Unlink(n: Id)
      requires n in nodes
      modifies this`nodes
      ensures nodes == Without(old(nodes), n)
    {
      var k := 0;
      while nodes[k] != n
        invariant k < |nodes| && forall j :: 0 <= j < k ==> nodes[j] != n
        decreases |nodes| - k
      {
        k := k + 1;
      }
      WithoutAt(nodes, n, k);
      nodes := nodes[..k] + nodes[k + 1..];
    }

    // ----- mark

    method EnqueueGray(n: Id, ghost busy: set<Id>) returns (sent: bool)
      requires QueueOk(color, gray, busy) && n in color && liveNodes == |Coloured(color)|
      requires forall b :: b in busy ==> b in color && !color[b].White?
      modifies this`color, this`liveNodes, this`gray
      ensures QueueOk(color, gray, busy) && liveNodes == |Coloured(color)|
      ensures sent <==> old(color)[n].White?
      ensures color == if sent then old(color)[n := Gray] else old(color)
      ensures gray == if sent then old(gray) + [n] else old(gray)
      ensures liveNodes == old(liveNodes) + if sent then 1 else 0
    {
      sent := color[n].White?;
      if sent {
        Enqueued(color, gray, busy, n);
        color := color[n := Gray];
        liveNodes := liveNodes + 1;
        gray := gray + [n];
      }
    }

    /** Takes the oldest grey node, notifies its white references and blackens it. */
    method PropagateHead() returns (sent: nat)
      requires QueueOk(color, gray, {}) && gray != [] && liveNodes == |Coloured(color)|
      requires color.Keys == refs.Keys && NoDangling(refs, roots)
      modifies this`color, this`liveNodes, this`gray, this`notificationsSent, this`scanCount
      ensures QueueOk(color, gray, {}) && liveNodes == |Coloured(color)|
      ensures old(gray)[0] in old(color) && old(color)[old(gray)[0]].Gray?
      ensures color == Notified(old(color), refs[old(gray)[0]])[old(gray)[0] := Black]
      ensures liveNodes == old(liveNodes) + sent && |gray| == |old(gray)| - 1 + sent
      ensures scanCount == old(scanCount) + 1 && notificationsSent == old(notificationsSent) + sent
    {
      Dequeued(color, gray);
      var n := gray[0];
      gray := gray[1..];
      sent := 0;
      ghost var c0, rs := color, refs[n];
      assert Notified(c0, rs[..0]) == c0;
      var i := 0;
      while i < |refs[n]|
        invariant 0 <= i <= |rs| && QueueOk(color, gray, {n}) && color == Notified(c0, rs[..i])
        invariant liveNodes == |Coloured(color)| == old(liveNodes) + sent
        invariant |gray| == |old(gray)| - 1 + sent
        invariant scanCount == old(scanCount) && notificationsSent == old(notificationsSent)
      {
        NotifiedOneMore(c0, rs, i);
        var s := EnqueueGray(refs[n][i], {n});
        sent := sent + if s then 1 else 0;
        i := i + 1;
      }
      assert rs[..i] == rs;
      Blackened(color, gray, n);
      color := color[n := Black];
      notificationsSent := notificationsSent + sent;
      scanCount := scanCount + 1;
    }

    /** What holds between two propagations of a mark that started from the colours c0. */
    ghost predicate MarkState(c0: map<Id, Color>)
      reads this
    {
      && Marking(refs, roots, c0, color) && NoDangling(refs, roots)
      && QueueOk(color, gray, {}) && liveNodes == |Coloured(color)|
    }

    method DrainOne(ghost c0: map<Id, Color>)
      requires MarkState(c0) && gray != []
      modifies this`color, this`liveNodes, this`gray, this`notificationsSent, this`scanCount
      ensures MarkState(c0) && Coloured(old(color)) <= Coloured(color) && color.Keys == old(color.Keys)
      ensures old(liveNodes) <= liveNodes <= |color.Keys|
      ensures |gray| - |old(gray)| == liveNodes - old(liveNodes) - 1
      ensures scanCount == old(scanCount) + 1
    {
      Dequeued(color, gray);
      PropagationMarks(refs, roots, c0, color, gray[0]);
      var _ := PropagateHead();
      SubsetCounts(Coloured(color), color.Keys);
    }

    method DrainGray(ghost c0: map<Id, Color>)
      requires MarkState(c0)
      modifies this`color, this`liveNodes, this`gray, this`notificationsSent, this`scanCount
      ensures MarkState(c0) && gray == [] && Coloured(old(color)) <= Coloured(color)
      ensures scanCount - old(scanCount) == liveNodes - old(liveNodes) + |old(gray)|
    {
      SubsetCounts(Coloured(color), color.Keys);
      while gray != []
        invariant MarkState(c0) && Coloured(old(color)) <= Coloured(color)
        invariant scanCount - old(scanCount) == liveNodes - old(liveNodes) + |old(gray)| - |gray|
        invariant liveNodes <= |color.Keys|
        decreases |color.Keys| - liveNodes, |gray|
      {
        DrainOne(c0);
      }
    }

    method NotifyRoots(ghost c0: map<Id, Color>)
      requires MarkState(c0) && gray == []
      modifies this`color, this`liveNodes, this`gray
      ensures MarkState(c0) && liveNodes == old(liveNodes) + |gray|
      ensures forall i :: 0 <= i < |roots| ==> roots[i] in Coloured(color)
    {
      var i := 0;
      while i < |roots|
        invariant 0 <= i <= |roots| && MarkState(c0) && liveNodes == old(liveNodes) + |gray|
        invariant forall j :: 0 <= j < i ==> roots[j] in Coloured(color)
      {
        ghost var was := Coloured(color);
        NotifyRoot(c0, roots[i]);
        assert was <= Coloured(color);
        i := i + 1;
      }
    }

    method NotifyRoot(ghost c0: map<Id, Color>, root: Id)
      requires MarkState(c0) && root in roots && root in color
      modifies this`color, this`liveNodes, this`gray
      ensures MarkState(c0) && liveNodes - old(liveNodes) == |gray| - |old(gray)|
      ensures Coloured(color) == Coloured(old(color)) + {root}
    {
      if color[root].White? {
        RootMarks(refs, roots, c0, color, root);
      }
      var _ := EnqueueGray(root, {});
    }

    /** A mark colours exactly what survives, and scans each newly live node once. */
    method Mark() returns (live: nat)
      requires Valid()
      modifies this`color, this`liveNodes, this`gray, this`notificationsSent, this`scanCount, this`cycles
      ensures Valid() && color.Keys == old(color.Keys)
      ensures forall x :: x in color ==> (x in Coloured(color) <==> Survives(refs, roots, old(color), x))
      ensures live == liveNodes
      ensures scanCount - old(scanCount) == liveNodes - old(liveNodes)
    {
      ghost var c0 := color;
      NotifyRoots(c0);
      DrainGray(c0);
      cycles := cycles + 1;
      live := liveNodes;
      MarkedAll(refs, roots, c0, color, gray);
    }

    /** The queue is empty between calls, so an incremental step has nothing to do. */
    method Step(maxNotifications: int) returns (done: bool)
      requires Valid()
      ensures done
    {
      done := gray == [];
    }

    /** Forgets the colours without collecting. */
    method Reset()
      requires Valid()
      modifies this`color, this`gray, this`liveNodes, this`deadNodes, this`notificationsSent, this`scanCount
      ensures Valid() && color == Whitened(old(color))
    {
      WhitenedClean(color);
      gray := [];
      color := Whitened(color);
      liveNodes, deadNodes, notificationsSent, scanCount := 0, 0, 0, 0;
    }

    /** Frees the white nodes and whitens the rest. */
    method Sweep() returns (freed: nat)
      requires Valid()
      modifies this`nodes, this`color, this`refs, this`size, this`liveNodes, this`deadNodes, this`bytesFreed
      ensures var s := SweepOf(old(color), old(refs), old(size), old(nodes));
              && nodes == s.kept && color == s.color && refs == s.refs && size == s.size
              && deadNodes == s.dead && freed == bytesFreed == s.bytes
      ensures liveNodes == 0
    {
      var s := SweepNodes(color, refs, size, nodes);
      nodes, color, refs, size := s.kept, s.color, s.refs, s.size;
      deadNodes, bytesFreed, liveNodes := s.dead, s.bytes, 0;
      freed := bytesFreed;
    }

    /** A sweep keeps the heap sound exactly when no root and no coloured node refers
        to a white node. */
    lemma SweptIsSound(c0: map<Id, Color>, r0: Refs, s0: map<Id, nat>, ns: seq<Id>)
      requires c0.Keys == r0.Keys && ListOk(ns, r0, s0, nextId)
      requires gray == [] && liveNodes == 0
      requires var s := SweepOf(c0, r0, s0, ns); nodes == s.kept && color == s.color && refs == s.refs && size == s.size
      ensures Valid() <==> Closed(r0, roots, c0)
    {
      SweptList(c0, r0, s0, ns, nextId);
      SweptClean(c0, r0, s0, ns);
      SweptDanglesUnlessClosed(r0, roots, c0);
    }

    /** A full collection keeps exactly the survivors.  The heap is sound after it exactly
        if whatever a black node referred to survives, and nothing reachable is freed
        exactly if that holds of the reachable black nodes. */
    method MarkSweep() returns (dead: nat)
      requires Valid()
      modifies this
      ensures roots == old(roots) && color.Keys == refs.Keys
      ensures forall x :: x in refs <==> x in old(refs) && Survives(old(refs), roots, old(color), x)
      ensures forall x :: x in refs ==> refs[x] == old(refs)[x] && color[x].White?
      ensures dead == deadNodes == |old(nodes)| - |nodes|
      ensures Valid() <==> BlackTargetsSurvive(old(refs), roots, old(color))
      ensures (forall x :: x in old(refs) && Reachable(old(refs), roots, x) ==> x in refs)
        <==> ReachedBlackTargetsSurvive(old(refs), roots, old(color))
    {
      ghost var c0, r0 := color, refs;
      KeepsReachableIff(r0, roots, c0);
      var _ := Mark();
      MarkClosedIff(refs, roots, c0, color);
      dead := SweepMarked(c0);
    }

    method SweepMarked(ghost c0: map<Id, Color>) returns (dead: nat)
      requires Valid() && c0.Keys == color.Keys
      requires forall x :: x in color ==> (x in Coloured(color) <==> Survives(refs, roots, c0, x))
      modifies this
      ensures roots == old(roots) && color.Keys == refs.Keys
      ensures forall x :: x in refs <==> x in old(refs) && Survives(old(refs), roots, c0, x)
      ensures forall x :: x in refs ==> refs[x] == old(refs)[x] && color[x].White?
      ensures dead == deadNodes == |old(nodes)| - |nodes|
      ensures Valid() <==> Closed(old(refs), roots, old(color))
    {
      ghost var c1, r1, s1, n1 := color, refs, size, nodes;
      var _ := Sweep();
      SweptIsSound(c1, r1, s1, n1);
      SweepMeaning(c1, r1, s1, n1);
      SweepCounts(c1, r1, s1, n1);
      dead := deadNodes;
    }
  }

  /** A root that a mark has made black, and a white node beside it. */
  method BlackRoot() returns (gc: PonGcState, root: Id, x: Id)
    ensures fresh(gc) && gc.Valid() && gc.roots == [root] && root != x && root in gc.color && x in gc.color
    ensures gc.color[root].Black? && gc.color[x].White?
  {
    gc := new PonGcState();
    root := gc.NodeCreate(0);
    x := gc.NodeCreate(0);
    gc.AddRoot(root);
    RootSurvives(gc.refs, gc.roots, gc.color, root);
    OnlyRoot(gc.refs, root, gc.color, x);
    var _ := gc.Mark();
    assert root in Coloured(gc.color) && x !in Coloured(gc.color);
  }

  /** Without the condition a reachable node is freed: the black root is made to refer to
      the white node. */
  method MarkSweepFreesReachable() returns (gc: PonGcState, ghost before: Refs, root: Id, x: Id)
    ensures gc.roots == [root] && Reachable(before, gc.roots, x) && x !in gc.refs
  {
    gc, root, x := BlackRoot();
    gc.AddRef(root, x);
    before := gc.refs;
    RootReaches(before, root, x);
    BlackHides(before, root, gc.color, x);
    var _ := gc.MarkSweep();
  }

  /** A node that nothing refers to is reached only as a root. */
  lemma OnlyRoot(refs: Refs, root: Id, color: map<Id, Color>, x: Id)
    requires root != x && x in color && color[x].White? && forall n :: n in refs ==> x !in refs[n]
    ensures !Survives(refs, [root], color, x)
  {
    forall p | Path(refs, p) && p[0] in [root] ensures p[|p| - 1] != x {
      if |p| > 1 {
        assert p[|p| - 1] in refs[p[|p| - 2]];
      }
    }
  }

  lemma RootReaches(refs: Refs, root: Id, x: Id)
    requires root in refs && x in refs && x in refs[root]
    ensures Reachable(refs, [root], x)
  {
    var p := [root, x];
    assert Path(refs, p) && p[0] in [root] && p[|p| - 1] == x;
  }

  /** A black root is not visited again. */
  lemma BlackHides(refs: Refs, root: Id, color: map<Id, Color>, x: Id)
    requires color.Keys == refs.Keys && root in color && color[root].Black? && x in color && color[x].White?
    ensures !Survives(refs, [root], color, x)
  {
    forall p | Path(refs, p) && p[0] in [root] ensures !AllWhite(color, p) {
      assert p[0] == root;
    }
  }
}
