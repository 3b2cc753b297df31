module PidTable {
  // The per-process call time and call memory tables (beam_bp.c): open addressing
  // with linear probing from the pid's bits above the tag, doubled when more than
  // seven tenths full.

  type Pid = nat

  const NIL: Pid := 0x3b
  const INITIAL_SIZE: nat := 32

  datatype Bucket = Bucket(pid: Pid, count: int, accumulator: int)

  datatype Total = Total(count: int, accumulator: int)

  const EMPTY := Bucket(NIL, 0, 0)

  function Hash(pid: Pid, n: nat): (h: nat)
    requires n > 0
    ensures h < n
  {
    pid / 16 % n
  }

  function After(i: nat, n: nat): nat
    requires i < n
  {
    (i + 1) % n
  }

  /** The index d places after h, around the table. */
  function Slot(h: nat, n: nat, d: nat): (i: nat)
    requires h < n && d < n
    ensures i < n
  {
    if h + d < n then h + d else h + d - n
  }

  function Distance(h: nat, n: nat, i: nat): (d: nat)
    requires h < n && i < n
    ensures d < n && Slot(h, n, d) == i
  {
    if h <= i then i - h else i + n - h
  }

  lemma AfterIsNextSlot(h: nat, n: nat, d: nat)
    requires h < n && d + 1 < n
    ensures After(Slot(h, n, d), n) == Slot(h, n, d + 1)
  {
    var i := Slot(h, n, d);
    if i + 1 == n {
      assert (i + 1) % n == 0;
    } else {
      assert (i + 1) % n == i + 1;
    }
  }

  // ----- the table as a map

  predicate Distinct(b: seq<Bucket>) {
    forall i, j :: 0 <= i < j < |b| && b[i].pid != NIL ==> b[i].pid != b[j].pid
  }

  /** Every pid is found by probing: no bucket before its own is empty. */
  predicate Reachable(b: seq<Bucket>) {
    forall i, d :: 0 <= i < |b| && b[i].pid != NIL && 0 <= d < Distance(Hash(b[i].pid, |b|), |b|, i) ==>
      b[Slot(Hash(b[i].pid, |b|), |b|, d)].pid != NIL
  }

  predicate Table(b: seq<Bucket>) {
    |b| > 0 && Distinct(b) && Reachable(b)
  }

  function Contents(b: seq<Bucket>): map<Pid, Total>
    requires Distinct(b)
  {
    map i | 0 <= i < |b| && b[i].pid != NIL :: b[i].pid := Total(b[i].count, b[i].accumulator)
  }

  function CountUsed(b: seq<Bucket>): nat {
    if b == [] then 0 else CountUsed(b[..|b| - 1]) + if b[|b| - 1].pid == NIL then 0 else 1
  }

  lemma {:induction false} RoomMeansEmpty(b: seq<Bucket>)
    requires CountUsed(b) < |b|
    ensures exists i :: 0 <= i < |b| && b[i].pid == NIL
  {
    var last := |b| - 1;
    if b[last].pid != NIL {
      RoomMeansEmpty(b[..last]);
      var i :| 0 <= i < last && b[..last][i].pid == NIL;
      assert b[i].pid == NIL;
    }
  }

  lemma {:induction false} CountFilled(b: seq<Bucket>, i: nat, x: Bucket)
    requires i < |b| && b[i].pid == NIL && x.pid != NIL
    ensures CountUsed(b[i := x]) == CountUsed(b) + 1
  {
    var last := |b| - 1;
    if i < last {
      CountFilled(b[..last], i, x);
      assert b[i := x][..last] == b[..last][i := x];
    } else {
      assert b[i := x][..last] == b[..last];
    }
  }

  lemma {:induction false} CountSame(b: seq<Bucket>, i: nat, x: Bucket)
    requires i < |b| && b[i].pid == x.pid
    ensures CountUsed(b[i := x]) == CountUsed(b)
  {
    var last := |b| - 1;
    if i < last {
      CountSame(b[..last], i, x);
      assert b[i := x][..last] == b[..last][i := x];
    } else {
      assert b[i := x][..last] == b[..last];
    }
  }

  lemma {:induction false} CountEmpty(b: seq<Bucket>)
    requires forall i :: 0 <= i < |b| ==> b[i].pid == NIL
    ensures CountUsed(b) == 0
  {
    if b != [] {
      CountEmpty(b[..|b| - 1]);
    }
  }

  // ----- probing

  /** The first d probes for pid met other pids only. */
  predicate Probed(b: seq<Bucket>, pid: Pid, d: nat)
    requires |b| > 0 && d <= |b|
  {
    forall e :: 0 <= e < d ==>
      b[Slot(Hash(pid, |b|), |b|, e)].pid != NIL && b[Slot(Hash(pid, |b|), |b|, e)].pid != pid
  }

  lemma ProbesAreBounded(b: seq<Bucket>, pid: Pid)
    requires |b| > 0 && Probed(b, pid, |b|)
    ensures forall i :: 0 <= i < |b| ==> b[i].pid != NIL
  {
    forall i | 0 <= i < |b|
      ensures b[i].pid != NIL
    {
      var d := Distance(Hash(pid, |b|), |b|, i);
      assert b[Slot(Hash(pid, |b|), |b|, d)].pid != NIL;
    }
  }

  /** An empty bucket in probe order means that pid is nowhere in the table. */
  lemma EmptyMeansAbsent(b: seq<Bucket>, pid: Pid, d: nat)
    requires Table(b) && pid != NIL && d < |b| && Probed(b, pid, d)
    requires b[Slot(Hash(pid, |b|), |b|, d)].pid == NIL
    ensures forall i :: 0 <= i < |b| ==> b[i].pid != pid
  {
    forall i | 0 <= i < |b|
      ensures b[i].pid != pid
    {
      var h := Hash(pid, |b|);
      var e := Distance(h, |b|, i);
      assert b[Slot(h, |b|, e)] == b[i];
    }
  }

  /** Writing a new pid in the first empty bucket of its probe sequence. */
  lemma FillKeepsTable(b: seq<Bucket>, x: Bucket, d: nat)
    requires Table(b) && x.pid != NIL && d < |b|
    requires forall e :: 0 <= e < d ==> b[Slot(Hash(x.pid, |b|), |b|, e)].pid != NIL
    requires b[Slot(Hash(x.pid, |b|), |b|, d)].pid == NIL
    requires forall i :: 0 <= i < |b| ==> b[i].pid != x.pid
    ensures var b' := b[Slot(Hash(x.pid, |b|), |b|, d) := x];
            Table(b') && Contents(b') == Contents(b)[x.pid := Total(x.count, x.accumulator)]
  {
    var k := Slot(Hash(x.pid, |b|), |b|, d);
    var b' := b[k := x];
    assert Distance(Hash(x.pid, |b|), |b|, k) == d;
    assert Reachable(b');
    assert Distinct(b');
    ContentsUpdate(b, k, x);
  }

  lemma SamePidsSameTable(b: seq<Bucket>, b': seq<Bucket>)
    requires Table(b) && |b'| == |b| && forall i :: 0 <= i < |b| ==> b'[i].pid == b[i].pid
    ensures Table(b')
  {
  }

  /** Adding to the bucket that holds the pid already. */
  lemma AddKeepsTable(b: seq<Bucket>, k: nat, x: Bucket)
    requires Table(b) && k < |b| && b[k].pid != NIL && x.pid == b[k].pid
    ensures Table(b[k := x]) && Contents(b[k := x]) == Contents(b)[x.pid := Total(x.count, x.accumulator)]
  {
    SamePidsSameTable(b, b[k := x]);
    ContentsUpdate(b, k, x);
  }

  lemma ContentsUpdate(b: seq<Bucket>, k: nat, x: Bucket)
    requires k < |b| && Distinct(b) && Distinct(b[k := x]) && x.pid != NIL
    requires b[k].pid == NIL || b[k].pid == x.pid
    ensures Contents(b[k := x]) == Contents(b)[x.pid := Total(x.count, x.accumulator)]
  {
    var b' := b[k := x];
    var m, m' := Contents(b), Contents(b');
    assert b'[k].pid == x.pid;
    forall p
      ensures p in m' <==> p in m || p == x.pid
      ensures p in m && p != x.pid ==> m'[p] == m[p]
    {
      if p in m && p != x.pid {
        var i :| 0 <= i < |b| && b[i].pid == p && p != NIL;
        assert b'[i] == b[i];
      }
    }
  }

  lemma InContents(b: seq<Bucket>, i: nat)
    requires Distinct(b) && i < |b| && b[i].pid != NIL
    ensures b[i].pid in Contents(b) && Contents(b)[b[i].pid] == Total(b[i].count, b[i].accumulator)
  {
  }

  lemma FromContents(b: seq<Bucket>, y: Pid) returns (i: nat)
    requires Distinct(b) && y in Contents(b)
    ensures i < |b| && b[i].pid == y && y != NIL
  {
    i :| 0 <= i < |b| && b[i].pid == y && y != NIL;
  }

  lemma AppendDistinct(p: seq<Bucket>, x: Bucket)
    requires Distinct(p + [x])
    ensures Distinct(p) && x.pid !in Contents(p)
  {
    var q := p + [x];
    assert forall i :: 0 <= i < |p| ==> q[i] == p[i];
    assert q[|p|] == x;
  }

  lemma AppendOne(p: seq<Bucket>, x: Bucket, y: Pid)
    requires Distinct(p + [x]) && Distinct(p)
    ensures y in Contents(p + [x]) <==> y in Contents(p) || (y == x.pid && y != NIL)
    ensures y in Contents(p) ==> y in Contents(p + [x]) && Contents(p + [x])[y] == Contents(p)[y]
  {
    var q := p + [x];
    if y in Contents(p) {
      var i := FromContents(p, y);
      assert q[i] == p[i];
      InContents(q, i);
      InContents(p, i);
    }
    if x.pid != NIL {
      InContents(q, |p|);
    }
    if y in Contents(q) {
      var i := FromContents(q, y);
      if i < |p| {
        assert q[i] == p[i];
        InContents(p, i);
      }
    }
  }

  lemma ContentsAppend(p: seq<Bucket>, x: Bucket)
    requires Distinct(p + [x])
    ensures Distinct(p) && x.pid !in Contents(p)
    ensures Contents(p + [x]) ==
            if x.pid == NIL then Contents(p) else Contents(p)[x.pid := Total(x.count, x.accumulator)]
  {
    AppendDistinct(p, x);
    if x.pid != NIL {
      assert (p + [x])[|p|] == x;
      InContents(p + [x], |p|);
    }
    forall y
      ensures y in Contents(p + [x]) <==> y in Contents(p) || (y == x.pid && y != NIL)
      ensures y in Contents(p) ==> y in Contents(p + [x]) && Contents(p + [x])[y] == Contents(p)[y]
    {
      AppendOne(p, x, y);
    }
  }

  lemma ContentsPrefix(b: seq<Bucket>, i: nat)
    requires Distinct(b) && i < |b|
    ensures b[..i + 1] == b[..i] + [b[i]] && Distinct(b[..i + 1])
    ensures CountUsed(b[..i + 1]) == CountUsed(b[..i]) + if b[i].pid == NIL then 0 else 1
  {
    assert b[..i + 1][..i] == b[..i];
  }

  // ----- accumulating

  function Get(m: map<Pid, Total>, p: Pid): Total {
    if p in m then m[p] else Total(0, 0)
  }

  function Plus(a: Total, b: Total): Total {
    Total(a.count + b.count, a.accumulator + b.accumulator)
  }

  function AddItem(m: map<Pid, Total>, x: Bucket): map<Pid, Total> {
    m[x.pid := Plus(Get(m, x.pid), Total(x.count, x.accumulator))]
  }

  /** The first empty bucket of pid's probe sequence. */
  method FindEmpty(dst: array<Bucket>, pid: Pid) returns (k: nat, ghost d: nat)
    requires dst.Length > 0 && CountUsed(dst[..]) < dst.Length
    requires forall i :: 0 <= i < dst.Length ==> dst[i].pid != pid
    ensures d < dst.Length && k == Slot(Hash(pid, dst.Length), dst.Length, d) && dst[k].pid == NIL
    ensures Probed(dst[..], pid, d)
  {
    ghost var b := dst[..];
    var n := dst.Length;
    k := Hash(pid, n);
    d := 0;
    RoomMeansEmpty(b);
    while dst[k].pid != NIL
      invariant d < n && k == Slot(Hash(pid, n), n, d) && Probed(b, pid, d)
      decreases n - d
    {
      if d + 1 == n {
        assert Probed(b, pid, n);
        ProbesAreBounded(b, pid);
        assert false;
      }
      AfterIsNextSlot(Hash(pid, n), n, d);
      k := After(k, n);
      d := d + 1;
    }
  }

  /** Puts an absent pid in the first empty bucket of its probe sequence. */
  method Insert(dst: array<Bucket>, x: Bucket)
    requires Table(dst[..]) && CountUsed(dst[..]) < dst.Length
    requires x.pid != NIL && x.pid !in Contents(dst[..])
    modifies dst
    ensures Table(dst[..]) && CountUsed(dst[..]) == old(CountUsed(dst[..])) + 1
    ensures Contents(dst[..]) == old(Contents(dst[..]))[x.pid := Total(x.count, x.accumulator)]
  {
    ghost var b := dst[..];
    forall i | 0 <= i < |b|
      ensures b[i].pid != x.pid
    {
      assert b[i].pid != NIL ==> b[i].pid in Contents(b);
    }
    var k, d := FindEmpty(dst, x.pid);
    FillKeepsTable(b, x, d);
    CountFilled(b, k, x);
    dst[k] := x;
    assert dst[..] == b[k := x];
  }

  /** t holds what the first i buckets of b hold. */
  predicate Copied(t: seq<Bucket>, b: seq<Bucket>, i: nat) {
    && i <= |b| && Table(t) && Distinct(b[..i])
    && CountUsed(t) == CountUsed(b[..i]) <= i
    && Contents(t) == Contents(b[..i])
  }

  lemma CopiedNone(t: seq<Bucket>, b: seq<Bucket>)
    requires |t| > 0 && forall i :: 0 <= i < |t| ==> t[i] == EMPTY
    ensures Copied(t, b, 0)
  {
    CountEmpty(t);
    assert b[..0] == [];
  }

  method CopyBucket(dst: array<Bucket>, x: Bucket, ghost b: seq<Bucket>, ghost i: nat)
    requires i < |b| < dst.Length && Distinct(b) && b[i] == x && Copied(dst[..], b, i)
    modifies dst
    ensures Copied(dst[..], b, i + 1)
  {
    ContentsPrefix(b, i);
    ContentsAppend(b[..i], b[i]);
    if x.pid != NIL {
      Insert(dst, x);
    }
  }

  class PidHash {
    var buckets: array<Bucket>
    var used: nat

    /** At most seven tenths were used before the last insertion. */
    ghost predicate Valid()
      reads this, buckets
    {
      && Table(buckets[..]) && buckets.Length >= INITIAL_SIZE
      && used == CountUsed(buckets[..]) && 10 * used <= 7 * buckets.Length + 10
    }

    ghost function Model(): map<Pid, Total>
      requires Valid()
      reads this, buckets
    {
      Contents(buckets[..])
    }

    constructor (n: nat)
      requires n >= INITIAL_SIZE
      ensures Valid() && Model() == map[] && fresh(buckets) && buckets.Length == n && used == 0
    {
      buckets := new Bucket[n](_ => EMPTY);
      used := 0;
      new;
      CountEmpty(buckets[..]);
    }

    lemma HasRoom()
      requires Valid()
      ensures exists i :: 0 <= i < buckets.Length && buckets[i].pid == NIL
    {
      RoomMeansEmpty(buckets[..]);
      var i :| 0 <= i < |buckets[..]| && buckets[..][i].pid == NIL;
      assert buckets[i].pid == NIL;
    }

    /** The index of pid's bucket, or none: every probe sequence ends. */
    method Find(pid: Pid) returns (found: bool, k: nat, ghost d: nat)
      requires Valid() && pid != NIL
      ensures found <==> pid in Model()
      ensures k < buckets.Length && (found ==> buckets[k].pid == pid)
      ensures !found ==> buckets[k].pid == NIL && d < buckets.Length && Probed(buckets[..], pid, d)
                         && k == Slot(Hash(pid, buckets.Length), buckets.Length, d)
    {
      ghost var b := buckets[..];
      var n := buckets.Length;
      k := Hash(pid, n);
      d := 0;
      HasRoom();
      while buckets[k].pid != pid
        invariant d < n && k == Slot(Hash(pid, n), n, d) && Probed(b, pid, d)
        decreases n - d
      {
        if buckets[k].pid == NIL {
          EmptyMeansAbsent(b, pid, d);
          return false, k, d;
        }
        if d + 1 == n {
          assert Probed(b, pid, n);
          ProbesAreBounded(b, pid);
          assert false;
        }
        AfterIsNextSlot(Hash(pid, n), n, d);
        k := After(k, n);
        d := d + 1;
      }
      found := true;
      assert b[k].pid == pid;
    }

    /** The same contents in a table of n buckets. */
    method Rehash(n: nat)
      requires Valid() && n == 2 * buckets.Length
      modifies this`buckets
      ensures Table(buckets[..]) && CountUsed(buckets[..]) == old(CountUsed(buckets[..]))
      ensures fresh(buckets) && buckets.Length == n
      ensures Contents(buckets[..]) == old(Model())
    {
      var src := buckets;
      ghost var b := src[..];
      var dst := new Bucket[n](_ => EMPTY);
      CopiedNone(dst[..], b);
      var ix := 0;
      while ix < src.Length
        invariant 0 <= ix <= |b| && src[..] == b && Copied(dst[..], b, ix)
      {
        CopyBucket(dst, src[ix], b, ix);
        ix := ix + 1;
      }
      assert b[..ix] == b;
      buckets := dst;
    }

    method Put(x: Bucket)
      requires Valid() && x.pid != NIL && x.pid !in Model()
      modifies this, buckets
      ensures Valid() && (buckets == old(buckets) || fresh(buckets))
      ensures Model() == old(Model())[x.pid := Total(x.count, x.accumulator)]
    {
      if 10 * used > 7 * buckets.Length {
        Rehash(2 * buckets.Length);
      }
      Insert(buckets, x);
      used := used + 1;
    }

    /** Adds to the bucket of x's pid. */
    method AddTo(k: nat, x: Bucket)
      requires Valid() && k < buckets.Length && x.pid != NIL && buckets[k].pid == x.pid
      modifies buckets
      ensures Valid() && Model() == AddItem(old(Model()), x)
    {
      ghost var b := buckets[..];
      var item := buckets[k];
      var sum := item.(count := item.count + x.count, accumulator := item.accumulator + x.accumulator);
      AddKeepsTable(b, k, sum);
      CountSame(b, k, sum);
      InContents(b, k);
      buckets[k] := sum;
      assert buckets[..] == b[k := sum];
    }

    method Accumulate(x: Bucket)
      requires Valid() && x.pid != NIL
      modifies this, buckets
      ensures Valid() && (buckets == old(buckets) || fresh(buckets))
      ensures Model() == AddItem(old(Model()), x)
    {
      var found, k, d := Find(x.pid);
      if !found {
        Put(x);
      } else {
        AddTo(k, x);
      }
    }
  }
}
