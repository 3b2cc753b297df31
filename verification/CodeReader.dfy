module CodeReader {
  // The BEAM code reader (beam_file.c).  It replaces the instructions that open a
  // function by one int_func_start, and marks where the function ends with an
  // int_func_end, by holding instructions back in a queue while it looks ahead.

  import opened Options

  /** An operand: an unsigned number, NIL, or anything else. */
  datatype Arg = U(val: nat) | N | OtherArg(id: int)

  datatype Op = Label(a: Arg) | Line(a: Arg) | FuncInfo(m: Arg, f: Arg, n: Arg) | CodeEnd | Other(id: int)
    | FuncStart(l: Arg, loc: Arg, m: Arg, f: Arg, n: Arg)
    | FuncEnd(func: nat, entry: nat)

  /** What can be in a file: the other two are made by the reader only. */
  predicate Raw(ops: seq<Op>) {
    forall i :: 0 <= i < |ops| ==> !ops[i].FuncStart? && !ops[i].FuncEnd?
  }

  // ----- what the output stands for

  function ExpandOp(op: Op): seq<Op> {
    match op
    case FuncStart(l, loc, m, f, n) => [Label(l)] + (if loc.N? then [] else [Line(loc)]) + [FuncInfo(m, f, n)]
    case FuncEnd(_, _) => []
    case _ => [op]
  }

  /** Writes out every int_func_start, and drops every int_func_end. */
  function Expand(ops: seq<Op>): seq<Op> {
    if ops == [] then [] else ExpandOp(ops[0]) + Expand(ops[1..])
  }

  lemma {:induction false} ExpandConcat(a: seq<Op>, b: seq<Op>)
    ensures Expand(a + b) == Expand(a) + Expand(b)
  {
    if a == [] {
      assert a + b == b;
    } else {
      ExpandConcat(a[1..], b);
      assert (a + b)[1..] == a[1..] + b && (a + b)[0] == a[0];
      Assoc(ExpandOp(a[0]), Expand(a[1..]), Expand(b));
    }
  }

  lemma Assoc(a: seq<Op>, b: seq<Op>, c: seq<Op>)
    ensures a + (b + c) == a + b + c
  {
  }

  lemma {:induction false} ExpandRaw(ops: seq<Op>)
    requires Raw(ops)
    ensures Expand(ops) == ops
  {
    if ops != [] {
      ExpandRaw(ops[1..]);
      assert ops == [ops[0]] + ops[1..];
    }
  }

  /** Between functions, after an int_func_start, or in the function with these labels. */
  datatype Where = Outside | Started(func: nat) | Inside(func: nat, entry: nat)

  /** An int_func_start opens a function and is followed by the entry label; an
      int_func_end carries the labels of the function it closes; the code ends
      outside of functions. */
  function ScanOp(w: Where, op: Op): Option<Where> {
    match op
    case FuncStart(l, _, _, _, _) => if w.Outside? && l.U? then Some(Started(l.val)) else None
    case FuncEnd(f, e) => if w == Inside(f, e) then Some(Outside) else None
    case Label(a) => if w.Started? then (if a.U? then Some(Inside(w.func, a.val)) else None) else Some(w)
    case CodeEnd => if w.Outside? then Some(Outside) else None
    case _ => if w.Started? then None else Some(w)
  }

  function Scan(w: Where, ops: seq<Op>): Option<Where>
    decreases |ops|
  {
    if ops == [] then Some(w)
    else if ScanOp(w, ops[0]).None? then None
    else Scan(ScanOp(w, ops[0]).value, ops[1..])
  }

  lemma {:induction false} ScanConcat(w: Where, a: seq<Op>, b: seq<Op>)
    ensures Scan(w, a + b) == if Scan(w, a).None? then None else Scan(Scan(w, a).value, b)
    decreases |a|
  {
    if a == [] {
      assert a + b == b;
    } else {
      assert (a + b)[1..] == a[1..] + b && (a + b)[0] == a[0];
      if ScanOp(w, a[0]).Some? {
        ScanConcat(ScanOp(w, a[0]).value, a[1..], b);
      }
    }
  }

  // ----- refilling the queue

  /** The reader between two instructions of the file. */
  datatype Mode = Mode(first: bool, func: nat, entry: nat)

  function At(m: Mode): Where {
    if m.first then Outside else Inside(m.func, m.entry)
  }

  function EndOf(m: Mode): seq<Op> {
    if m.first then [] else [FuncEnd(m.func, m.entry)]
  }

  /** What goes to the queue, how many instructions that uses up, and the mode after. */
  datatype Refill = Refill(queue: seq<Op>, used: nat, mode: Mode)

  /** rest[i] is the func_info of a function whose label is rest[0]. */
  function Header(rest: seq<Op>, i: nat, m: Mode): Option<Refill>
    requires 1 <= i < |rest| && rest[i].FuncInfo? && rest[0].Label? && (i == 2 ==> rest[1].Line?)
  {
    if i + 1 < |rest| && rest[i + 1].Label? && rest[i + 1].a.U? && rest[0].a.U? then
      var loc := if i == 2 then rest[1].a else N;
      var start := FuncStart(rest[0].a, loc, rest[i].m, rest[i].f, rest[i].n);
      Some(Refill(EndOf(m) + [start, rest[i + 1]], i + 2, Mode(false, rest[0].a.val, rest[i + 1].a.val)))
    else None
  }

  /** None if the code cannot be read. */
  function Fill(rest: seq<Op>, m: Mode): (r: Option<Refill>)
    requires Raw(rest)
    ensures r.Some? ==> 0 < r.value.used <= |rest| && r.value.queue != []
  {
    if rest == [] then None
    else
      match rest[0]
      case Label(_) =>
        var i := if |rest| > 1 && rest[1].Line? then 2 else 1;
        if i >= |rest| || rest[i].CodeEnd? then None
        else if rest[i].FuncInfo? then Header(rest, i, m)
        else Some(Refill(rest[..i + 1], i + 1, m))
      case CodeEnd => Some(Refill(EndOf(m) + [CodeEnd], 1, m))
      case _ => Some(Refill([rest[0]], 1, m))
  }

  /** A function header whose line is NIL: int_func_start cannot tell it from one
      without a line. */
  predicate NilHeader(rest: seq<Op>) {
    |rest| > 2 && rest[0].Label? && rest[1] == Line(N) && rest[2].FuncInfo?
  }

  /** The first used instructions, without the NIL line of a function header. */
  function Chunk(rest: seq<Op>, used: nat): seq<Op>
    requires used <= |rest|
  {
    if NilHeader(rest) && used > 2 then [rest[0]] + rest[2..used] else rest[..used]
  }

  lemma ExpandOne(op: Op)
    ensures Expand([op]) == ExpandOp(op)
  {
    assert [op][1..] == [];
  }

  lemma EndExpands(m: Mode, ops: seq<Op>)
    ensures Expand(EndOf(m) + ops) == Expand(ops)
  {
    ExpandConcat(EndOf(m), ops);
    assert EndOf(m) != [] ==> EndOf(m)[1..] == [];
  }

  lemma StartExpands(m: Mode, start: Op, entry: Op)
    requires start.FuncStart? && entry.Label?
    ensures Expand(EndOf(m) + [start, entry]) == ExpandOp(start) + [entry]
  {
    EndExpands(m, [start, entry]);
    ExpandConcat([start], [entry]);
    ExpandOne(start);
    ExpandOne(entry);
    assert [start, entry] == [start] + [entry];
  }

  lemma FirstFew(rest: seq<Op>)
    requires |rest| >= 3
    ensures rest[..3] == [rest[0], rest[1], rest[2]]
    ensures |rest| >= 4 ==> rest[..4] == [rest[0], rest[1], rest[2], rest[3]] && [rest[0]] + rest[2..4] == [rest[0], rest[2], rest[3]]
  {
  }

  lemma HeaderExpands(rest: seq<Op>, i: nat, m: Mode)
    requires Raw(rest) && 1 <= i <= 2 && i < |rest| && rest[i].FuncInfo? && rest[0].Label? && (i == 2 ==> rest[1].Line?)
    requires Header(rest, i, m).Some?
    ensures var r := Header(rest, i, m).value;
      Expand(r.queue) == Chunk(rest, r.used) && (NilHeader(rest) ==> r.used > 2)
  {
    var loc := if i == 2 then rest[1].a else N;
    StartExpands(m, FuncStart(rest[0].a, loc, rest[i].m, rest[i].f, rest[i].n), rest[i + 1]);
    FirstFew(rest);
  }

  lemma FillExpands(rest: seq<Op>, m: Mode)
    requires Raw(rest) && Fill(rest, m).Some?
    ensures var r := Fill(rest, m).value;
      Expand(r.queue) == Chunk(rest, r.used) && (NilHeader(rest) ==> r.used > 2)
  {
    var r := Fill(rest, m).value;
    var i := if |rest| > 1 && rest[1].Line? then 2 else 1;
    if rest[0].Label? && rest[i].FuncInfo? {
      HeaderExpands(rest, i, m);
    } else if rest[0].CodeEnd? {
      EndExpands(m, [CodeEnd]);
      ExpandOne(CodeEnd);
    } else {
      assert r.queue == rest[..r.used];
      ExpandRaw(r.queue);
    }
  }

  lemma HeaderScans(rest: seq<Op>, i: nat, m: Mode)
    requires 1 <= i < |rest| && rest[i].FuncInfo? && rest[0].Label? && (i == 2 ==> rest[1].Line?) && Header(rest, i, m).Some?
    ensures var r := Header(rest, i, m).value; Scan(At(m), r.queue) == Some(At(r.mode))
  {
    var r, entry := Header(rest, i, m).value, rest[i + 1];
    var start := FuncStart(rest[0].a, if i == 2 then rest[1].a else N, rest[i].m, rest[i].f, rest[i].n);
    ScanEnd(m);
    ScanConcat(At(m), EndOf(m), [start, entry]);
    assert [start, entry][1..] == [entry] && [entry][1..] == [];
    assert Scan(Started(rest[0].a.val), [entry]) == Some(At(r.mode));
    assert Scan(Outside, [start, entry]) == Some(At(r.mode));
  }

  lemma FillScans(rest: seq<Op>, m: Mode)
    requires Raw(rest) && Fill(rest, m).Some?
    ensures var r := Fill(rest, m).value;
      Scan(At(m), r.queue) == Some(if rest[0].CodeEnd? then Outside else At(r.mode))
  {
    var r := Fill(rest, m).value;
    var i := if |rest| > 1 && rest[1].Line? then 2 else 1;
    if rest[0].Label? && rest[i].FuncInfo? {
      HeaderScans(rest, i, m);
    } else if rest[0].CodeEnd? {
      ScanEnd(m);
      ScanConcat(At(m), EndOf(m), [CodeEnd]);
      assert [CodeEnd][1..] == [];
    } else {
      ScanPlain(At(m), r.queue);
    }
  }

  lemma ScanEnd(m: Mode)
    ensures Scan(At(m), EndOf(m)) == Some(Outside)
  {
    assert EndOf(m) != [] ==> EndOf(m)[1..] == [];
  }

  lemma {:induction false} ScanPlain(w: Where, ops: seq<Op>)
    requires Raw(ops) && !w.Started? && forall i :: 0 <= i < |ops| ==> !ops[i].CodeEnd?
    ensures Scan(w, ops) == Some(w)
    decreases |ops|
  {
    if ops != [] {
      ScanPlain(w, ops[1..]);
    }
  }

  // ----- whole streams

  const NO_FUNCTION := Mode(true, 0, 0)

  /** Whether and how far the queue is filled does not depend on the function. */
  lemma FillSame(rest: seq<Op>, m: Mode, m': Mode)
    requires Raw(rest)
    ensures Fill(rest, m).Some? <==> Fill(rest, m').Some?
    ensures Fill(rest, m).Some? ==> Fill(rest, m).value.used == Fill(rest, m').value.used
  {
  }

  /** A stream as far as it goes: whether it can be read to the end of the code, the number
      of function headers with a NIL line, the number of instructions up to the end, and
      those instructions without the NIL lines of function headers. */
  datatype Whole = Whole(readable: bool, nils: nat, extent: nat, ops: seq<Op>)

  const END := Whole(true, 0, 0, [])

  /** used instructions, which stand for ops, before w. */
  function Before(used: nat, nils: nat, ops: seq<Op>, w: Whole): Whole {
    Whole(w.readable, nils + w.nils, used + w.extent, ops + w.ops)
  }

  function WholeOf(rest: seq<Op>): Whole
    requires Raw(rest)
  {
    var r := Fill(rest, NO_FUNCTION);
    if r.None? then Whole(false, 0, 0, [])
    else Before(r.value.used, if NilHeader(rest) then 1 else 0, Chunk(rest, r.value.used),
      if rest[0].CodeEnd? then END else WholeOf(rest[r.value.used..]))
  }

  predicate Readable(rest: seq<Op>)
    requires Raw(rest)
  {
    WholeOf(rest).readable
  }

  function NilHeaders(rest: seq<Op>): nat
    requires Raw(rest)
  {
    WholeOf(rest).nils
  }

  function Extent(rest: seq<Op>): nat
    requires Raw(rest)
  {
    WholeOf(rest).extent
  }

  function Standing(rest: seq<Op>): seq<Op>
    requires Raw(rest)
  {
    WholeOf(rest).ops
  }

  lemma {:induction false} NoNilLine(rest: seq<Op>)
    requires Raw(rest) && forall i :: 0 <= i < |rest| ==> rest[i] != Line(N)
    ensures NilHeaders(rest) == 0
  {
    var r := Fill(rest, NO_FUNCTION);
    if r.Some? && !rest[0].CodeEnd? {
      NoNilLine(rest[r.value.used..]);
    }
  }

  /** Nothing is left out but the NIL lines of function headers. */
  predicate Shaped(rest: seq<Op>, w: Whole) {
    |w.ops| + w.nils == w.extent <= |rest| && (w.nils == 0 ==> w.ops == rest[..w.extent])
  }

  lemma ShapeJoins(rest: seq<Op>, used: nat, w: Whole)
    requires used <= |rest| && (NilHeader(rest) ==> used > 2) && Shaped(rest[used..], w)
    ensures Shaped(rest, Before(used, if NilHeader(rest) then 1 else 0, Chunk(rest, used), w))
  {
    assert rest[..used] + rest[used..][..w.extent] == rest[..used + w.extent];
  }

  lemma {:induction false} WholeShape(rest: seq<Op>)
    requires Raw(rest)
    ensures Shaped(rest, WholeOf(rest))
  {
    var r := Fill(rest, NO_FUNCTION);
    if r.Some? {
      WholeStep(rest, NO_FUNCTION);
      FillExpands(rest, NO_FUNCTION);
      if rest[0].CodeEnd? {
        ShapeJoins(rest, r.value.used, END);
      } else {
        WholeShape(rest[r.value.used..]);
        ShapeJoins(rest, r.value.used, WholeOf(rest[r.value.used..]));
      }
    }
  }

  lemma ScanMore(out: seq<Op>, rest: seq<Op>, m: Mode, r: Refill)
    requires Raw(rest) && Fill(rest, m) == Some(r) && Scan(Outside, out) == Some(At(m))
    ensures rest != [] && Scan(Outside, out + r.queue) == Some(if rest[0].CodeEnd? then Outside else At(r.mode))
  {
    FillScans(rest, m);
    ScanConcat(Outside, out, r.queue);
  }

  lemma BeforeBefore(u: nat, n: nat, ops: seq<Op>, u': nat, n': nat, ops': seq<Op>, w: Whole)
    ensures Before(u, n, ops, Before(u', n', ops', w)) == Before(u + u', n + n', ops + ops', w)
  {
    Assoc(ops, ops', w.ops);
  }

  lemma WholeStep(rest: seq<Op>, m: Mode)
    requires Raw(rest) && Fill(rest, m).Some?
    ensures var r := Fill(rest, m).value;
      WholeOf(rest) == Before(r.used, if NilHeader(rest) then 1 else 0, Chunk(rest, r.used),
        if rest[0].CodeEnd? then END else WholeOf(rest[r.used..]))
  {
    FillSame(rest, m, NO_FUNCTION);
  }

  /** What has been read and made, with what is still to come, is the whole. */
  predicate Progress(input: seq<Op>, pos: nat, out: seq<Op>, m: Mode, ended: bool, nils: nat) {
    && Raw(input) && pos <= |input|
    && Scan(Outside, out) == Some(if ended then Outside else At(m))
    && Before(pos, nils, Expand(out), if ended then END else WholeOf(input[pos..])) == WholeOf(input)
  }

  lemma ExpandMore(out: seq<Op>, rest: seq<Op>, m: Mode, r: Refill)
    requires Raw(rest) && Fill(rest, m) == Some(r)
    ensures r.used <= |rest| && Expand(out + r.queue) == Expand(out) + Chunk(rest, r.used)
  {
    FillExpands(rest, m);
    ExpandConcat(out, r.queue);
  }

  lemma WholeMore(pos: nat, nils: nat, out: seq<Op>, rest: seq<Op>, m: Mode, r: Refill)
    requires Raw(rest) && Fill(rest, m) == Some(r)
    ensures rest != [] && r.used <= |rest|
    ensures Before(pos, nils, Expand(out), WholeOf(rest)) ==
      Before(pos + r.used, nils + if NilHeader(rest) then 1 else 0, Expand(out + r.queue),
        if rest[0].CodeEnd? then END else WholeOf(rest[r.used..]))
  {
    ExpandMore(out, rest, m, r);
    WholeStep(rest, m);
    BeforeBefore(pos, nils, Expand(out), r.used, if NilHeader(rest) then 1 else 0, Chunk(rest, r.used),
      if rest[0].CodeEnd? then END else WholeOf(rest[r.used..]));
  }

  lemma ProgressMore(input: seq<Op>, pos: nat, out: seq<Op>, m: Mode, nils: nat, rest: seq<Op>, r: Refill)
    requires Progress(input, pos, out, m, false, nils) && rest == input[pos..] && Fill(rest, m) == Some(r)
    ensures rest != []
    ensures Progress(input, pos + r.used, out + r.queue, r.mode, rest[0].CodeEnd?, nils + if NilHeader(rest) then 1 else 0)
  {
    ScanMore(out, rest, m, r);
    WholeMore(pos, nils, out, rest, m, r);
    assert input[pos + r.used..] == rest[r.used..];
  }

  lemma Filling(input: seq<Op>, p: nat, out: seq<Op>, m: Mode, nils: nat, pos: nat, queue: seq<Op>, now: Mode)
      returns (ended: bool, nils': nat)
    requires Progress(input, p, out, m, false, nils)
    requires pos >= p && Fill(input[p..], m) == Some(Refill(queue, pos - p, now))
    ensures Progress(input, pos, out + queue, now, ended, nils') && EndsRight(queue, ended)
  {
    var rest := input[p..];
    ProgressMore(input, p, out, m, nils, rest, Refill(queue, pos - p, now));
    QueueEnd(rest, m);
    ended, nils' := rest[0].CodeEnd?, nils + if NilHeader(rest) then 1 else 0;
  }

  lemma ProgressStart(input: seq<Op>)
    requires Raw(input)
    ensures Progress(input, 0, [], NO_FUNCTION, false, 0)
  {
    assert input[0..] == input;
    assert [] + WholeOf(input).ops == WholeOf(input).ops;
  }

  /** The end of the code is last in the queue, if it is there. */
  predicate EndsRight(queue: seq<Op>, ended: bool) {
    forall i :: 0 <= i < |queue| ==> (queue[i].CodeEnd? <==> ended && i == |queue| - 1)
  }

  lemma QueueEnd(rest: seq<Op>, m: Mode)
    requires Raw(rest) && Fill(rest, m).Some?
    ensures EndsRight(Fill(rest, m).value.queue, rest[0].CodeEnd?)
  {
  }

  // ----- the reader

  class Reader {
    const input: seq<Op>
    var pos: nat
    var pending: seq<Op>
    var first: bool
    var func: nat
    var entry: nat
    ghost var emitted: seq<Op>
    ghost var ended: bool
    ghost var nils: nat

    ghost function Now(): Mode
      reads this`first, this`func, this`entry
    {
      Mode(first, func, entry)
    }

    ghost predicate Valid()
      reads this
    {
      && Progress(input, pos, emitted + pending, Now(), ended, nils)
      && EndsRight(pending, ended)
    }

    constructor (ops: seq<Op>)
      requires Raw(ops)
      ensures Valid() && input == ops && emitted == [] && pending == [] && !ended
    {
      input, pos, pending, first, func, entry := ops, 0, [], true, 0, 0;
      emitted, ended, nils := [], false, 0;
      ProgressStart(ops);
    }

    method ReadNext() returns (op: Option<Op>)
      requires pos <= |input|
      modifies this`pos
      ensures op.Some? <==> old(pos) < |input|
      ensures op.Some? ==> op.value == input[old(pos)] && pos == old(pos) + 1
      ensures op.None? ==> pos == old(pos)
    {
      if pos < |input| {
        op := Some(input[pos]);
        pos := pos + 1;
      } else {
        op := None;
      }
    }

    method SynthesizeFuncEnd()
      modifies this`pending
      ensures pending == [FuncEnd(func, entry)] + old(pending)
    {
      pending := [FuncEnd(func, entry)] + pending;
    }

    /** After label and an optional line have been read, and op after them. */
    method FinishHeader(lbl: Op, line: Option<Op>, info: Op) returns (ok: bool)
      requires lbl.Label? && info.FuncInfo? && (line.Some? ==> line.value.Line?) && pos <= |input| && Raw(input)
      requires var i := if line.Some? then 2 else 1;
        pos >= i + 1 && input[pos - i - 1] == lbl && input[pos - 1] == info && (line.Some? ==> input[pos - 2] == line.value)
      modifies this`pos, this`pending, this`first, this`func, this`entry
      ensures var i := if line.Some? then 2 else 1;
        var h := Header(input[old(pos) - i - 1..], i, old(Now()));
        && (ok <==> h.Some?)
        && (ok ==> pending == h.value.queue && pos == old(pos) + 1 && Now() == h.value.mode)
    {
      var e := ReadNext();
      if e.None? || !e.value.Label? || !e.value.a.U? || !lbl.a.U? {
        return false;
      }
      var loc := if line.Some? then line.value.a else N;
      pending := [FuncStart(lbl.a, loc, info.m, info.f, info.n), e.value];
      if !first {
        SynthesizeFuncEnd();
      }
      func, entry, first := lbl.a.val, e.value.a.val, false;
      ok := true;
    }

    method FillLabel(lbl: Op) returns (ok: bool)
      requires Raw(input) && 0 < pos <= |input| && input[pos - 1] == lbl && lbl.Label? && pending == []
      modifies this`pos, this`pending, this`first, this`func, this`entry
      ensures Filled(ok, old(pos) - 1, old(Now()))
    {
      var op := ReadNext();
      if op.None? {
        return false;
      }
      var line: Option<Op> := None;
      if op.value.Line? {
        line := op;
        op := ReadNext();
        if op.None? {
          return false;
        }
      }
      if op.value.CodeEnd? {
        return false;
      }
      if op.value.FuncInfo? {
        ok := FinishHeader(lbl, line, op.value);
      } else {
        pending := [lbl] + (if line.Some? then [line.value] else []) + [op.value];
        ok := true;
      }
    }

    /** The queue is filled from position p on, as Fill says. */
    ghost predicate Filled(ok: bool, p: nat, m: Mode)
      requires Raw(input) && p <= |input|
      reads this`pos, this`pending, this`first, this`func, this`entry
    {
      var r := Fill(input[p..], m);
      && (ok <==> r.Some?)
      && (ok ==> pending == r.value.queue && pos == p + r.value.used && Now() == r.value.mode)
    }

    method FillQueue() returns (ok: bool)
      requires Raw(input) && pos <= |input| && pending == []
      modifies this`pos, this`pending, this`first, this`func, this`entry
      ensures Filled(ok, old(pos), old(Now()))
    {
      var op := ReadNext();
      if op.None? {
        return false;
      }
      match op.value
      case Label(_) => ok := FillLabel(op.value);
      case CodeEnd =>
        pending := [op.value];
        if !first {
          SynthesizeFuncEnd();
        }
        ok := true;
      case _ =>
        pending := [op.value];
        ok := true;
    }

    /** beamcodereader_next. */
    method Next() returns (op: Option<Op>)
      requires Valid() && (ended ==> pending != [])
      modifies this
      ensures Raw(input) && (op.None? ==> !Readable(input))
      ensures op.Some? ==> Valid() && emitted == old(emitted) + [op.value]
      ensures op.Some? ==> (op.value.CodeEnd? <==> ended && pending == [])
      ensures op.Some? ==> pos > old(pos) || (pos == old(pos) && |pending| < |old(pending)|)
    {
      if pending == [] {
        assert emitted + pending == emitted;
        var ok := Refresh();
        if !ok {
          return None;
        }
      }
      var first := Pop();
      op := Some(first);
    }

    /** The first instruction of the queue is given out. */
    method Pop() returns (op: Op)
      requires Valid() && pending != []
      modifies this`pending, this`emitted
      ensures Valid() && emitted == old(emitted) + [op] && |pending| == |old(pending)| - 1
      ensures op.CodeEnd? <==> ended && pending == []
    {
      op := pending[0];
      assert emitted + pending == emitted + [pending[0]] + pending[1..];
      emitted := emitted + [op];
      pending := pending[1..];
    }

    method Refresh() returns (ok: bool)
      requires Progress(input, pos, emitted, Now(), false, nils) && pending == []
      modifies this`pos, this`pending, this`first, this`func, this`entry, this`ended, this`nils
      ensures ok ==> Valid() && pending != [] && pos > old(pos)
      ensures !ok ==> !Readable(input)
    {
      ghost var p, m := pos, Now();
      FillSame(input[p..], m, NO_FUNCTION);
      ok := FillQueue();
      if ok {
        Track(p, m);
      }
    }

    /** The queue has been filled from position p on. */
    ghost method Track(p: nat, m: Mode)
      requires Progress(input, p, emitted, m, false, nils) && Filled(true, p, m)
      modifies this`ended, this`nils
      ensures Valid()
    {
      ended, nils := Filling(input, p, emitted, m, nils, pos, pending, Now());
    }
  }

  /** A module of one function whose header has a NIL line is read, and the line is lost. */
  lemma NilLineIsLost(m: Arg, f: Arg, n: Arg)
    ensures var ops := [Label(U(1)), Line(N), FuncInfo(m, f, n), Label(U(2)), CodeEnd];
      Raw(ops) && Readable(ops) && NilHeaders(ops) == 1 && Extent(ops) == 5
      && Standing(ops) == [Label(U(1)), FuncInfo(m, f, n), Label(U(2)), CodeEnd]
  {
    var ops := [Label(U(1)), Line(N), FuncInfo(m, f, n), Label(U(2)), CodeEnd];
    assert Fill(ops, NO_FUNCTION).value.used == 4;
    assert ops[4..] == [CodeEnd];
    assert [ops[0]] + ops[2..4] == [ops[0], ops[2], ops[3]];
    assert Fill([CodeEnd], NO_FUNCTION).value.used == 1;
    assert [CodeEnd][..1] == [CodeEnd];
    assert WholeOf([CodeEnd]) == Whole(true, 0, 1, [CodeEnd]);
    WholeStep(ops, NO_FUNCTION);
  }

  /** Reads a whole module.  Every function start is closed by the end with its own
      labels before the next; writing the starts out and dropping the ends gives the
      file's own instructions up to the end of the code, without the NIL lines of function
      headers: all of them exactly if there is no such line. */
  method ReadAll(ops: seq<Op>) returns (out: Option<seq<Op>>, n: nat)
    requires Raw(ops)
    ensures out.Some? <==> Readable(ops)
    ensures out.Some? ==> n == Extent(ops) <= |ops| && Scan(Outside, out.value) == Some(Outside)
    ensures out.Some? ==> Expand(out.value) == Standing(ops) && |Expand(out.value)| + NilHeaders(ops) == n
    ensures out.Some? ==> (Expand(out.value) == ops[..n] <==> NilHeaders(ops) == 0)
    ensures out.Some? ==> out.value != [] && out.value[|out.value| - 1] == CodeEnd
  {
    var reader := new Reader(ops);
    var acc: seq<Op> := [];
    n := 0;
    while true
      invariant fresh(reader) && reader.Valid() && reader.input == ops && reader.emitted == acc
      invariant reader.ended ==> reader.pending != []
      decreases |ops| - reader.pos, |reader.pending|
    {
      WholeShape(ops);
      var op := reader.Next();
      if op.None? {
        return None, 0;
      }
      acc := acc + [op.value];
      if op.value.CodeEnd? {
        assert reader.emitted + reader.pending == acc;
        return Some(acc), reader.pos;
      }
    }
  }
}
