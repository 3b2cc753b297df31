module StackWalk {
  // Walking the stack of a process (beam_common.c): gathering a stack trace, finding
  // a printable return address and finding a catch handler.  Tracing pushes frames
  // of its own, whose data words can look like anything; the walkers skip them.

  import opened Options

  /** A return address: into ordinary code, or to one of the tracing instructions. */
  datatype Addr = Code(at: int) | ReturnTrace | ExceptionTrace | CallAccTrace | ReturnToTrace

  /** A word on the stack; Fp is a frame pointer, which has the tag of a return address. */
  datatype Word = Value(v: int) | Catch(handler: nat) | Cp(a: Addr) | Fp(at: nat)

  const NIL := Value(-1)

  predicate IsCp(w: Word) {
    w.Cp? || w.Fp?
  }

  /** The words of a trace frame after its return address. */
  function Extra(a: Addr): nat {
    match a
    case Code(_) => 0
    case ReturnTrace => 3
    case ExceptionTrace => 3
    case CallAccTrace => 3
    case ReturnToTrace => 1
  }

  // ----- well-formed stacks

  /** What the stack is made of, the latest first. */
  datatype Item = Data(w: Word) | Frame(fp: nat, a: Addr) | TraceFrame(fp: nat, a: Addr, data: seq<Word>)

  predicate WfItem(it: Item) {
    match it
    case Data(w) => !IsCp(w)
    case Frame(_, a) => a.Code?
    case TraceFrame(_, a, data) => !a.Code? && |data| == Extra(a)
  }

  /** A trace frame is pushed on top of the return address it intercepts. */
  predicate Wf(items: seq<Item>) {
    && (forall i :: 0 <= i < |items| ==> WfItem(items[i]))
    && (forall i :: 0 <= i < |items| && items[i].TraceFrame? ==> i + 1 < |items| && !items[i + 1].Data?)
  }

  /** A frame starts with its return address, or with a frame pointer before it. */
  function Words(it: Item, cpSize: nat): seq<Word> {
    match it
    case Data(w) => [w]
    case Frame(fp, a) => (if cpSize == 2 then [Fp(fp)] else []) + [Cp(a)]
    case TraceFrame(fp, a, data) => (if cpSize == 2 then [Fp(fp)] else []) + [Cp(a)] + data
  }

  function Flatten(items: seq<Item>, cpSize: nat): seq<Word> {
    if items == [] then [] else Words(items[0], cpSize) + Flatten(items[1..], cpSize)
  }

  function Erase(items: seq<Item>): seq<Item> {
    if items == [] then []
    else if items[0].TraceFrame? then Erase(items[1..])
    else [items[0]] + Erase(items[1..])
  }

  /** Where item k starts. */
  function Pos(items: seq<Item>, cpSize: nat, k: nat): nat
    requires k <= |items|
  {
    |Flatten(items[..k], cpSize)|
  }

  lemma {:induction false} FlattenAt(items: seq<Item>, cpSize: nat, k: nat)
    requires k <= |items|
    ensures Flatten(items, cpSize) == Flatten(items[..k], cpSize) + Flatten(items[k..], cpSize)
  {
    if k == 0 {
      assert items[..0] == [] && items[0..] == items;
    } else {
      FlattenAt(items[1..], cpSize, k - 1);
      assert items[..k][1..] == items[1..][..k - 1] && items[1..][k - 1..] == items[k..];
      assert items[..k][0] == items[0];
      Assoc(Words(items[0], cpSize), Flatten(items[1..][..k - 1], cpSize), Flatten(items[k..], cpSize));
    }
  }

  lemma Assoc(a: seq<Word>, b: seq<Word>, c: seq<Word>)
    ensures a + (b + c) == a + b + c
  {
  }

  /** The words of item k are at its position, and item k + 1 comes after them. */
  lemma ItemAt(items: seq<Item>, cpSize: nat, k: nat)
    requires k < |items|
    ensures Pos(items, cpSize, k + 1) == Pos(items, cpSize, k) + |Words(items[k], cpSize)| <= |Flatten(items, cpSize)|
  {
    FlattenAt(items, cpSize, k);
    FlattenAt(items[..k + 1], cpSize, k);
    assert items[..k + 1][..k] == items[..k] && items[..k + 1][k..] == [items[k]];
    assert Flatten([items[k]], cpSize) == Words(items[k], cpSize) + Flatten([], cpSize);
    assert items[k..][0] == items[k];
  }

  lemma ItemWord(items: seq<Item>, cpSize: nat, k: nat, j: nat)
    requires k < |items| && j < |Words(items[k], cpSize)|
    ensures Pos(items, cpSize, k) + j < |Flatten(items, cpSize)|
    ensures Flatten(items, cpSize)[Pos(items, cpSize, k) + j] == Words(items[k], cpSize)[j]
  {
    ItemAt(items, cpSize, k);
    FlattenAt(items, cpSize, k);
    assert items[k..][0] == items[k];
  }

  lemma FrameWords(it: Item, cpSize: nat)
    requires WfItem(it) && 1 <= cpSize <= 2 && !it.Data?
    ensures var w := Words(it, cpSize); |w| == cpSize + Extra(it.a) && w[cpSize - 1] == Cp(it.a) && IsCp(w[0])
  {
  }

  lemma PosEnd(items: seq<Item>, cpSize: nat)
    ensures Pos(items, cpSize, |items|) == |Flatten(items, cpSize)| && Pos(items, cpSize, 0) == 0
  {
    assert items[..|items|] == items && items[..0] == [];
  }

  /** A walker that has not reached the end is at an item. */
  lemma InStack(items: seq<Item>, cpSize: nat, k: nat)
    requires k <= |items| && Pos(items, cpSize, k) < |Flatten(items, cpSize)|
    ensures k < |items|
  {
    PosEnd(items, cpSize);
  }

  // ----- one step of a walker

  function AddrAt(s: seq<Word>, p: nat, cpSize: nat): Option<Addr> {
    if 1 <= cpSize && p + cpSize - 1 < |s| && s[p + cpSize - 1].Cp? then Some(s[p + cpSize - 1].a) else None
  }

  /** At a frame the walkers find its return address, and skip exactly the frame. */
  lemma FrameStep(items: seq<Item>, cpSize: nat, k: nat)
    requires Wf(items) && k < |items| && 1 <= cpSize <= 2 && !items[k].Data?
    ensures var p, s := Pos(items, cpSize, k), Flatten(items, cpSize);
      && p < |s| && IsCp(s[p]) && AddrAt(s, p, cpSize) == Some(items[k].a)
      && Pos(items, cpSize, k + 1) == p + cpSize + Extra(items[k].a) <= |s|
  {
    ItemAt(items, cpSize, k);
    FrameWords(items[k], cpSize);
    ItemWord(items, cpSize, k, 0);
    ItemWord(items, cpSize, k, cpSize - 1);
  }

  lemma DataStep(items: seq<Item>, cpSize: nat, k: nat)
    requires Wf(items) && k < |items| && items[k].Data?
    ensures var p, s := Pos(items, cpSize, k), Flatten(items, cpSize);
      p < |s| && s[p] == items[k].w && !IsCp(s[p]) && Pos(items, cpSize, k + 1) == p + 1
  {
    ItemAt(items, cpSize, k);
    ItemWord(items, cpSize, k, 0);
    assert WfItem(items[k]);
  }

  lemma Stands(items: seq<Item>, cpSize: nat, k: nat)
    requires Wf(items) && 1 <= cpSize <= 2 && k < |items|
    ensures var p, p', s := Pos(items, cpSize, k), Pos(items, cpSize, k + 1), Flatten(items, cpSize);
      && p < p' <= |s| && (IsCp(s[p]) <==> !items[k].Data?)
      && (items[k].Data? ==> s[p] == items[k].w && p' == p + 1)
      && (!items[k].Data? ==> AddrAt(s, p, cpSize) == Some(items[k].a) && p' == p + cpSize + Extra(items[k].a))
  {
    ItemAt(items, cpSize, k);
    if items[k].Data? {
      DataStep(items, cpSize, k);
    } else {
      FrameStep(items, cpSize, k);
    }
  }

  /** What stands at ptr: the return address of a frame, or none for a data word; and
      where the next item is. */
  method Inspect(s: seq<Word>, ptr: nat, cpSize: nat, ghost items: seq<Item>, ghost k: nat) returns (a: Option<Addr>, next: nat)
    requires Wf(items) && s == Flatten(items, cpSize) && 1 <= cpSize <= 2 && k < |items| && ptr == Pos(items, cpSize, k)
    ensures a == if items[k].Data? then None else Some(items[k].a)
    ensures next == Pos(items, cpSize, k + 1) && ptr < next <= |s|
    ensures items[k].Data? ==> s[ptr] == items[k].w
  {
    Stands(items, cpSize, k);
    if IsCp(s[ptr]) {
      assert AddrAt(s, ptr, cpSize) == Some(items[k].a);
      var ra := s[ptr + cpSize - 1].a;
      a, next := Some(ra), ptr + cpSize + Extra(ra);
    } else {
      a, next := None, ptr + 1;
    }
  }

  // ----- gather_stacktrace

  /** The return addresses in order, without repeats, at most n of them. */
  function TraceOf(items: seq<Item>, prev: Addr, n: nat): seq<Addr> {
    if items == [] || n == 0 then []
    else if items[0].Frame? && items[0].a != prev then [items[0].a] + TraceOf(items[1..], items[0].a, n - 1)
    else TraceOf(items[1..], prev, n)
  }

  lemma {:induction false} TraceIgnoresTracing(items: seq<Item>, prev: Addr, n: nat)
    ensures TraceOf(Erase(items), prev, n) == TraceOf(items, prev, n)
  {
    if items != [] && n != 0 {
      if items[0].TraceFrame? {
        TraceIgnoresTracing(items[1..], prev, n);
      } else {
        assert Erase(items)[1..] == Erase(items[1..]);
        if items[0].Frame? && items[0].a != prev {
          TraceIgnoresTracing(items[1..], items[0].a, n - 1);
        } else {
          TraceIgnoresTracing(items[1..], prev, n);
        }
      }
    }
  }

  /** The address of the call, rather than the one after it. */
  function Adjust(a: Addr): Addr {
    match a
    case Code(at) => Code(at - 1)
    case _ => a
  }

  function Adjusted(xs: seq<Addr>): seq<Addr> {
    if xs == [] then [] else [Adjust(xs[0])] + Adjusted(xs[1..])
  }

  function From(s: seq<Addr>, prev: Addr): Addr {
    if s == [] then prev else s[|s| - 1]
  }

  /** The trace so far and what the items from k on add to it. */
  function Full(items: seq<Item>, k: nat, prev: Addr, trace: seq<Addr>, maxDepth: nat): seq<Addr>
    requires k <= |items| && |trace| <= maxDepth
  {
    trace + Adjusted(TraceOf(items[k..], prev, maxDepth - |trace|))
  }

  predicate Records(it: Item, prev: Addr) {
    it.Frame? && it.a != prev
  }

  lemma FullStep(items: seq<Item>, k: nat, prev: Addr, trace: seq<Addr>, maxDepth: nat)
    requires k < |items| && |trace| < maxDepth
    ensures Full(items, k, prev, trace, maxDepth) ==
      if Records(items[k], prev) then Full(items, k + 1, items[k].a, trace + [Adjust(items[k].a)], maxDepth)
      else Full(items, k + 1, prev, trace, maxDepth)
  {
    assert items[k..][1..] == items[k + 1..];
    if Records(items[k], prev) {
      var a := items[k].a;
      var rest := TraceOf(items[k + 1..], a, maxDepth - |trace| - 1);
      var t := TraceOf(items[k..], prev, maxDepth - |trace|);
      assert t == [a] + rest && t[1..] == rest;
      assert trace + ([Adjust(a)] + Adjusted(rest)) == trace + [Adjust(a)] + Adjusted(rest);
    }
  }

  lemma FullEnd(items: seq<Item>, cpSize: nat, k: nat, prev: Addr, trace: seq<Addr>, maxDepth: nat)
    requires k <= |items| && |trace| <= maxDepth && (|trace| == maxDepth || Pos(items, cpSize, k) >= |Flatten(items, cpSize)|)
    ensures Full(items, k, prev, trace, maxDepth) == trace
  {
    if |trace| < maxDepth {
      PosFull(items, cpSize, k);
      assert items[k..] == [];
    }
  }

  lemma FullStart(items: seq<Item>, prev: Addr, trace: seq<Addr>, maxDepth: nat)
    requires |trace| <= maxDepth
    ensures Full(items, 0, prev, trace, maxDepth) == trace + Adjusted(TraceOf(Erase(items), prev, maxDepth - |trace|))
  {
    assert items[0..] == items;
    TraceIgnoresTracing(items, prev, maxDepth - |trace|);
  }

  method GatherStacktrace(s: seq<Word>, cpSize: nat, pc: Addr, trace0: seq<Addr>, maxDepth: nat, ghost items: seq<Item>) returns (trace: seq<Addr>)
    requires Wf(items) && s == Flatten(items, cpSize) && 1 <= cpSize <= 2
    ensures trace == if |trace0| >= maxDepth then trace0
      else trace0 + Adjusted(TraceOf(Erase(items), From(trace0, pc), maxDepth - |trace0|))
  {
    trace := trace0;
    if |trace| >= maxDepth {
      return;
    }
    var prev := if |trace| > 0 then trace[|trace| - 1] else pc;
    var ptr: nat := 0;
    ghost var k := 0;
    PosEnd(items, cpSize);
    FullStart(items, prev, trace, maxDepth);
    ghost var all := Full(items, 0, prev, trace, maxDepth);
    while ptr < |s| && |trace| < maxDepth
      invariant k <= |items| && ptr == Pos(items, cpSize, k) && |trace| <= maxDepth
      invariant Full(items, k, prev, trace, maxDepth) == all
      decreases |items| - k
    {
      InStack(items, cpSize, k);
      FullStep(items, k, prev, trace, maxDepth);
      assert WfItem(items[k]);
      var a, next := Inspect(s, ptr, cpSize, items, k);
      if a.Some? && a.value.Code? && a.value != prev {
        prev := a.value;
        trace := trace + [Adjust(prev)];
      }
      ptr, k := next, k + 1;
    }
    FullEnd(items, cpSize, k, prev, trace, maxDepth);
  }

  lemma PosFull(items: seq<Item>, cpSize: nat, k: nat)
    requires k <= |items| && Pos(items, cpSize, k) >= |Flatten(items, cpSize)|
    ensures k == |items|
  {
    if k < |items| {
      ItemAt(items, cpSize, k);
    }
  }

  // ----- erts_printable_return_address

  lemma {:induction false} EraseFirst(items: seq<Item>, k: nat)
    requires Wf(items) && k < |items| && items[k].Frame? && forall j :: 0 <= j < k ==> items[j].TraceFrame?
    ensures Erase(items) != [] && Erase(items)[0] == items[k]
  {
    if k > 0 {
      EraseFirst(items[1..], k - 1);
    }
  }

  /** The return address on top of the stack without its trace frames. */
  method PrintableReturnAddress(s: seq<Word>, cpSize: nat, ghost items: seq<Item>) returns (r: Addr)
    requires Wf(items) && s == Flatten(items, cpSize) && 1 <= cpSize <= 2 && items != [] && !items[0].Data?
    ensures Erase(items) != [] && Erase(items)[0].Frame? && r == Erase(items)[0].a
  {
    var scanner: nat := 0;
    ghost var k := 0;
    PosEnd(items, cpSize);
    ItemAt(items, cpSize, 0);
    while true
      invariant k < |items| && scanner == Pos(items, cpSize, k) && !items[k].Data?
      invariant forall j :: 0 <= j < k ==> items[j].TraceFrame?
      decreases |items| - k
    {
      assert WfItem(items[k]);
      var a, next := Inspect(s, scanner, cpSize, items, k);
      if a.value.Code? {
        EraseFirst(items, k);
        return a.value;
      }
      scanner, k := next, k + 1;
    }
  }

  // ----- next_catch

  predicate IsCatch(it: Item) {
    it.Data? && it.w.Catch?
  }

  /** The first catch tag, or the end. */
  function FirstCatch(items: seq<Item>): (c: nat)
    ensures c <= |items| && (c < |items| ==> IsCatch(items[c])) && forall j :: 0 <= j < c ==> !IsCatch(items[j])
  {
    if items == [] || IsCatch(items[0]) then 0 else 1 + FirstCatch(items[1..])
  }

  /** The last frame of xs, or its start if there is none. */
  function LastFrame(xs: seq<Item>): (l: nat)
    ensures l <= |xs|
  {
    var n := |xs|;
    if n == 0 then 0 else if !xs[n - 1].Data? then n - 1 else LastFrame(xs[..n - 1])
  }

  /** The trace frames of xs that the process counts in return_trace_frames. */
  function ReturnFrames(xs: seq<Item>): nat {
    var n := |xs|;
    if n == 0 then 0 else ReturnFrames(xs[..n - 1]) + if IsReturnFrame(xs[n - 1]) then 1 else 0
  }

  predicate IsReturnFrame(it: Item) {
    it.TraceFrame? && (it.a.ReturnTrace? || it.a.ExceptionTrace?)
  }

  lemma {:induction false} EraseConcat(a: seq<Item>, b: seq<Item>)
    ensures Erase(a + b) == Erase(a) + Erase(b)
  {
    if a == [] {
      assert a + b == b;
    } else {
      EraseConcat(a[1..], b);
      assert (a + b)[1..] == a[1..] + b && (a + b)[0] == a[0];
    }
  }

  lemma EraseFrom(items: seq<Item>)
    requires items != []
    ensures Erase(items) == (if items[0].TraceFrame? then [] else [items[0]]) + Erase(items[1..])
  {
  }

  lemma ErasePrefix(items: seq<Item>, c: nat)
    requires 0 < c <= |items|
    ensures |Erase(items[..c])| == |Erase(items[1..][..c - 1])| + if items[0].TraceFrame? then 0 else 1
  {
    assert items[..c][1..] == items[1..][..c - 1] && items[..c][0] == items[0];
  }

  lemma {:induction false} FirstCatchErased(items: seq<Item>)
    ensures var c, e := FirstCatch(items), Erase(items);
      && FirstCatch(e) == |Erase(items[..c])|
      && (c < |items| ==> FirstCatch(e) < |e| && e[FirstCatch(e)] == items[c])
      && (c == |items| ==> FirstCatch(e) == |e|)
  {
    var c, e := FirstCatch(items), Erase(items);
    if items == [] {
    } else if IsCatch(items[0]) {
      assert items[..0] == [];
    } else {
      FirstCatchErased(items[1..]);
      EraseFrom(items);
      ErasePrefix(items, c);
      if !items[0].TraceFrame? {
        assert e[1..] == Erase(items[1..]);
      }
    }
  }

  lemma {:induction false} LastFrameErased(xs: seq<Item>)
    requires forall i :: 0 <= i < |xs| && xs[i].TraceFrame? ==> i + 1 < |xs| && !xs[i + 1].Data?
    ensures LastFrame(Erase(xs)) == |Erase(xs[..LastFrame(xs)])|
    ensures LastFrame(xs) < |xs| ==> LastFrame(Erase(xs)) < |Erase(xs)| && Erase(xs)[LastFrame(Erase(xs))] == xs[LastFrame(xs)]
  {
    var n := |xs|;
    if n > 0 {
      var xs', x := xs[..n - 1], xs[n - 1];
      EraseConcat(xs', [x]);
      assert xs == xs' + [x] && Erase([x]) == [x] + Erase([]);
      assert Erase(xs) == Erase(xs') + [x];
      assert Erase(xs)[..|Erase(xs')|] == Erase(xs');
      if x.Data? {
        LastFrameErased(xs');
        assert xs'[..LastFrame(xs')] == xs[..LastFrame(xs)];
        LastFrameStart(xs');
      }
    }
  }

  lemma {:induction false} LastFrameStart(xs: seq<Item>)
    ensures LastFrame(xs) == |xs| ==> xs == []
  {
    if xs != [] {
      LastFrameStart(xs[..|xs| - 1]);
    }
  }

  /** The handler found, and the frame it is in, are those on the stack without trace
      frames. */
  lemma CatchIgnoresTracing(items: seq<Item>)
    requires Wf(items) && FirstCatch(items) < |items|
    ensures var c, e := FirstCatch(items), Erase(items);
      var ce := FirstCatch(e);
      && ce < |e| && e[ce] == items[c]
      && LastFrame(e[..ce]) == |Erase(items[..LastFrame(items[..c])])|
      && (LastFrame(items[..c]) < c ==> e[LastFrame(e[..ce])] == items[LastFrame(items[..c])])
  {
    var c, e := FirstCatch(items), Erase(items);
    FirstCatchErased(items);
    EraseConcat(items[..c], items[c..]);
    assert items == items[..c] + items[c..];
    assert e[..FirstCatch(e)] == Erase(items[..c]);
    LastFrameErased(items[..c]);
    var l := LastFrame(items[..c]);
    assert items[..c][..l] == items[..l];
  }

  lemma PrefixStep(items: seq<Item>, k: nat)
    requires k < |items|
    ensures ReturnFrames(items[..k + 1]) == ReturnFrames(items[..k]) + if IsReturnFrame(items[k]) then 1 else 0
    ensures LastFrame(items[..k + 1]) == if items[k].Data? then LastFrame(items[..k]) else k
  {
    assert items[..k + 1][..k] == items[..k];
  }

  lemma {:induction false} PrefixCount(items: seq<Item>, k: nat)
    requires k <= |items|
    ensures ReturnFrames(items[..k]) <= ReturnFrames(items)
    decreases |items| - k
  {
    if k < |items| {
      PrefixCount(items, k + 1);
      PrefixStep(items, k);
    } else {
      assert items[..k] == items;
    }
  }

  lemma CatchHere(items: seq<Item>, k: nat)
    requires k < |items| && forall j :: 0 <= j < k ==> !IsCatch(items[j])
    ensures IsCatch(items[k]) ==> FirstCatch(items) == k
  {
  }

  /** Finds the handler of the first catch tag, if the process has any active catch;
      clears the tag, and cuts the stack down to the frame the tag is in. */
  method NextCatch(stack: array<Word>, cpSize: nat, catches: int, frames: int, ghost items: seq<Item>)
    returns (handler: Option<nat>, stop: nat, frames': int)
    requires Wf(items) && stack[..] == Flatten(items, cpSize) && 1 <= cpSize <= 2 && frames >= ReturnFrames(items)
    modifies stack
    ensures handler.Some? <==> catches > 0 && FirstCatch(items) < |items|
    ensures handler.Some? ==> (
      var c := FirstCatch(items);
      && handler == Some(items[c].w.handler)
      && stop == Pos(items, cpSize, LastFrame(items[..c]))
      && frames' == frames - ReturnFrames(items[..c])
      && Pos(items, cpSize, c) < stack.Length && stack[..] == old(stack[..])[Pos(items, cpSize, c) := NIL])
    ensures handler.None? ==> stop == 0 && frames' == frames - ReturnFrames(items) && stack[..] == old(stack[..])
  {
    var found, ptr;
    ghost var c;
    found, ptr, stop, frames', c := ScanForCatch(stack[..], cpSize, catches > 0, frames, items);
    if found {
      handler := Some(stack[ptr].handler);
      stack[ptr] := NIL;
    } else {
      handler := None;
      stop := 0;
    }
  }

  method ScanForCatch(s: seq<Word>, cpSize: nat, active: bool, frames: int, ghost items: seq<Item>)
    returns (found: bool, ptr: nat, prev: nat, frames': int, ghost k: nat)
    requires Wf(items) && s == Flatten(items, cpSize) && 1 <= cpSize <= 2 && frames >= ReturnFrames(items)
    ensures found <==> active && FirstCatch(items) < |items|
    ensures found ==> k == FirstCatch(items) && ptr == Pos(items, cpSize, k) < |s| && s[ptr] == items[k].w
    ensures found ==> prev == Pos(items, cpSize, LastFrame(items[..k])) && frames' == frames - ReturnFrames(items[..k])
    ensures !found ==> frames' == frames - ReturnFrames(items)
  {
    found, ptr, prev, frames', k := false, 0, 0, frames, 0;
    PosEnd(items, cpSize);
    while ptr < |s|
      invariant k <= |items| && ptr == Pos(items, cpSize, k)
      invariant prev == Pos(items, cpSize, LastFrame(items[..k])) && frames' == frames - ReturnFrames(items[..k])
      invariant active ==> forall j :: 0 <= j < k ==> !IsCatch(items[j])
      decreases |items| - k
    {
      InStack(items, cpSize, k);
      PrefixStep(items, k);
      assert WfItem(items[k]);
      var a, next := Inspect(s, ptr, cpSize, items, k);
      if a.None? {
        if s[ptr].Catch? && active {
          CatchHere(items, k);
          found := true;
          return;
        }
      } else {
        prev := ptr;
        if a.value.ReturnTrace? || a.value.ExceptionTrace? {
          PrefixCount(items, k + 1);
          assert frames' > 0;
          frames' := frames' - 1;
        }
      }
      ptr, k := next, k + 1;
    }
    PosFull(items, cpSize, k);
    assert items[..k] == items;
  }
}
