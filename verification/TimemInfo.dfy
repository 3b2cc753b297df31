/**
 Collecting call time and call memory for trace:info (beam_bp.c, with the phases
 of erl_bif_trace.c).  While the tables are in use they are swapped for
 temporary ones by switching the active half of the breakpoint, read, swapped
 back, and the temporary ones are added to them.  A scheduler may use the half
 it saw last until the next code barrier.
 */
module TimemInfo {
  import opened PidTable

  // ----- adding up tables

  function SumOf(tables: seq<map<Pid, Total>>, p: Pid): Total {
    if tables == [] then Total(0, 0)
    else Plus(SumOf(tables[..|tables| - 1], p), Get(tables[|tables| - 1], p))
  }

  lemma PlusAssociates(a: Total, b: Total, c: Total)
    ensures Plus(Plus(a, b), c) == Plus(a, Plus(b, c))
    ensures Plus(a, b) == Plus(b, a)
    ensures Plus(a, Total(0, 0)) == a
  {
  }

  lemma GetAdded(m: map<Pid, Total>, x: Bucket, p: Pid)
    ensures Get(AddItem(m, x), p) == if p == x.pid then Plus(Get(m, p), Total(x.count, x.accumulator)) else Get(m, p)
  {
  }

  lemma {:induction false} SumAdded(tables: seq<map<Pid, Total>>, i: nat, x: Bucket, p: Pid)
    requires i < |tables|
    ensures SumOf(tables[i := AddItem(tables[i], x)], p) ==
            if p == x.pid then Plus(SumOf(tables, p), Total(x.count, x.accumulator)) else SumOf(tables, p)
  {
    var last := |tables| - 1;
    var t' := tables[i := AddItem(tables[i], x)];
    GetAdded(tables[i], x, p);
    if i < last {
      SumAdded(tables[..last], i, x, p);
      assert t'[..last] == tables[..last][i := AddItem(tables[i], x)];
    } else {
      assert t'[..last] == tables[..last];
    }
  }

  // ----- collecting the tables of all schedulers

  ghost function ModelOf(h: PidHash?): map<Pid, Total>
    requires h != null ==> h.Valid()
    reads h, if h == null then {} else {h.buckets}
  {
    if h == null then map[] else h.Model()
  }

  /** What a call may do to a table of totals that is allocated on demand. */
  twostate predicate OnlyGrown(tot0: PidHash?, new tot: PidHash?)
    reads tot
  {
    && (tot0 != null ==> tot == tot0)
    && (tot != null ==> (tot == tot0 || fresh(tot)) && (fresh(tot.buckets) || (tot == tot0 && tot.buckets == old(tot0.buckets))))
  }

  method AccumulateInto(tot0: PidHash?, item: Bucket) returns (tot: PidHash)
    requires item.pid != NIL && (tot0 != null ==> tot0.Valid())
    modifies tot0, if tot0 == null then {} else {tot0.buckets}
    ensures tot.Valid() && OnlyGrown(tot0, tot)
    ensures tot.Model() == AddItem(old(ModelOf(tot0)), item)
  {
    if tot0 == null {
      tot := new PidHash(INITIAL_SIZE);
    } else {
      tot := tot0;
    }
    tot.Accumulate(item);
  }

  /** m with the buckets of one table added, in order. */
  function AddAll(m: map<Pid, Total>, b: seq<Bucket>): map<Pid, Total> {
    if b == [] then m
    else
      var m' := AddAll(m, b[..|b| - 1]);
      if b[|b| - 1].pid == NIL then m' else AddItem(m', b[|b| - 1])
  }

  /** m with the tables of all schedulers added, in order. */
  function AddThreads(m: map<Pid, Total>, threads: seq<seq<Bucket>>): map<Pid, Total> {
    if threads == [] then m else AddAll(AddThreads(m, threads[..|threads| - 1]), threads[|threads| - 1])
  }

  lemma DistinctPrefix(p: seq<Bucket>, x: Bucket)
    requires Distinct(p + [x])
    ensures Distinct(p)
  {
    assert forall i :: 0 <= i < |p| ==> (p + [x])[i] == p[i];
  }

  lemma GetAppend(front: seq<Bucket>, x: Bucket, p: Pid)
    requires Distinct(front + [x])
    ensures Distinct(front)
    ensures x.pid != NIL && p == x.pid ==> Get(Contents(front), p) == Total(0, 0)
    ensures Get(Contents(front + [x]), p) ==
            if x.pid != NIL && p == x.pid then Total(x.count, x.accumulator) else Get(Contents(front), p)
  {
    ContentsAppend(front, x);
  }

  lemma AddAllSnoc(m: map<Pid, Total>, front: seq<Bucket>, x: Bucket, p: Pid)
    ensures Get(AddAll(m, front + [x]), p) ==
            if x.pid != NIL && p == x.pid then Plus(Get(AddAll(m, front), p), Total(x.count, x.accumulator))
            else Get(AddAll(m, front), p)
  {
    assert (front + [x])[..|front|] == front;
  }

  lemma {:induction false} AddAllMeaning(m: map<Pid, Total>, b: seq<Bucket>, p: Pid)
    requires Distinct(b)
    ensures Get(AddAll(m, b), p) == Plus(Get(m, p), Get(Contents(b), p))
    decreases |b|, 1
  {
    if b == [] {
      ContentsNone(b, p);
    } else {
      var n := |b| - 1;
      assert b[..n] + [b[n]] == b;
      AddAllLast(m, b[..n], b[n], p);
    }
  }

  lemma ContentsNone(b: seq<Bucket>, p: Pid)
    requires b == []
    ensures Get(Contents(b), p) == Total(0, 0)
  {
  }

  lemma AddAllLast(m: map<Pid, Total>, front: seq<Bucket>, x: Bucket, p: Pid)
    requires Distinct(front + [x])
    ensures Get(AddAll(m, front + [x]), p) == Plus(Get(m, p), Get(Contents(front + [x]), p))
    decreases |front + [x]|, 0
  {
    DistinctPrefix(front, x);
    AddAllMeaning(m, front, p);
    AddAllSnoc(m, front, x, p);
    GetAppend(front, x, p);
  }

  predicate TableIs(b: seq<Bucket>, t: map<Pid, Total>) {
    Distinct(b) && Contents(b) == t
  }

  lemma AddTableMeaning(m: map<Pid, Total>, b: seq<Bucket>, t: map<Pid, Total>, p: Pid)
    requires TableIs(b, t)
    ensures Get(AddAll(m, b), p) == Plus(Get(m, p), Get(t, p))
  {
    AddAllMeaning(m, b, p);
  }

  /** Collecting gives every pid the sum of its entries in all tables. */
  lemma {:induction false} AddThreadsMeaning(m: map<Pid, Total>, threads: seq<seq<Bucket>>, tables: seq<map<Pid, Total>>, p: Pid)
    requires |tables| == |threads| && forall i :: 0 <= i < |threads| ==> TableIs(threads[i], tables[i])
    ensures Get(AddThreads(m, threads), p) == Plus(Get(m, p), SumOf(tables, p))
  {
    if threads != [] {
      var last := |threads| - 1;
      var m' := AddThreads(m, threads[..last]);
      assert Get(m', p) == Plus(Get(m, p), SumOf(tables[..last], p)) by {
        AddThreadsMeaning(m, threads[..last], tables[..last], p);
      }
      assert Get(AddAll(m', threads[last]), p) == Plus(Get(m', p), Get(tables[last], p)) by {
        AddTableMeaning(m', threads[last], tables[last], p);
      }
      PlusAssociates(Get(m, p), SumOf(tables[..last], p), Get(tables[last], p));
    }
  }

  /** The buckets of one table are added to the totals. */
  method AddTable(b: seq<Bucket>, tot0: PidHash?) returns (tot: PidHash?)
    requires tot0 != null ==> tot0.Valid()
    modifies tot0, if tot0 == null then {} else {tot0.buckets}
    ensures (tot != null ==> tot.Valid()) && OnlyGrown(tot0, tot)
    ensures ModelOf(tot) == AddAll(old(ModelOf(tot0)), b)
  {
    tot := tot0;
    for ix := 0 to |b|
      invariant (tot != null ==> tot.Valid()) && OnlyGrown(tot0, tot)
      invariant ModelOf(tot) == AddAll(old(ModelOf(tot0)), b[..ix])
    {
      assert b[..ix + 1][..ix] == b[..ix];
      if b[ix].pid != NIL {
        tot := AccumulateInto(tot, b[ix]);
      }
    }
    assert b[..|b|] == b;
  }

  /** The tables of all schedulers, read while no scheduler writes them, are added to
      the totals. */
  method CollectTimem(threads: seq<seq<Bucket>>, tot0: PidHash?) returns (tot: PidHash?)
    requires tot0 != null ==> tot0.Valid()
    modifies tot0, if tot0 == null then {} else {tot0.buckets}
    ensures (tot != null ==> tot.Valid()) && OnlyGrown(tot0, tot)
    ensures ModelOf(tot) == AddThreads(old(ModelOf(tot0)), threads)
  {
    tot := tot0;
    for i := 0 to |threads|
      invariant (tot != null ==> tot.Valid()) && OnlyGrown(tot0, tot)
      invariant ModelOf(tot) == AddThreads(old(ModelOf(tot0)), threads[..i])
    {
      assert threads[..i + 1][..i] == threads[..i];
      tot := AddTable(threads[i], tot);
    }
    assert threads[..|threads|] == threads;
  }

  // ----- the protocol

  datatype Tables = Real | Temp

  datatype Phase = Quiet | Prepared | Switched | Restored

  datatype State = State(
    main: seq<map<Pid, Total>>,        // one table for each normal scheduler, one for the dirty ones
    temp: seq<map<Pid, Total>>,
    half: seq<Tables>,                 // the tables of the two halves of the breakpoint
    active: nat,
    view: seq<nat>,                    // the active half each scheduler sees
    phase: Phase,
    report: map<Pid, Total>,           // the totals collected
    // history
    before: seq<map<Pid, Total>>,      // the real tables when the collection began
    counted: seq<Bucket>,              // accumulated since then
    late: seq<Bucket>)                 // those of them made in the temporary tables

  datatype Event =
    | Accum(s: nat, x: Bucket)
    | See(s: nat)
    | Prepare
    | SwitchHalf
    | Collect
    | Consolidate

  predicate Shape(st: State) {
    && |st.main| == |st.temp| > 0 && |st.half| == 2 && st.active < 2
    && |st.view| >= |st.main| - 1 && forall s :: 0 <= s < |st.view| ==> st.view[s] < 2
  }

  /** Normal schedulers have a table each, the dirty ones share the last under a lock. */
  function SlotOf(st: State, s: nat): nat
    requires Shape(st)
  {
    if s < |st.main| - 1 then s else |st.main| - 1
  }

  predicate Barrier(st: State) {
    forall s :: 0 <= s < |st.view| ==> st.view[s] == st.active
  }

  predicate Enabled(st: State, ev: Event) {
    && Shape(st)
    && match ev
       case Accum(s, x) => s < |st.view| && x.pid != NIL
       case See(s) => s < |st.view|
       case Prepare => st.phase.Quiet?
       case SwitchHalf => st.phase.Prepared? && Barrier(st)
       case Collect => st.phase.Switched? && Barrier(st)
       case Consolidate => st.phase.Restored? && Barrier(st)
  }

  function Blank(n: nat): (t: seq<map<Pid, Total>>)
    ensures |t| == n && forall i :: 0 <= i < n ==> t[i] == map[]
  {
    seq(n, _ => map[])
  }

  /** The totals of the temporary tables are added to the dirty schedulers' real one. */
  function Merged(main: seq<map<Pid, Total>>, temp: seq<map<Pid, Total>>): map<Pid, Total>
    requires main != []
  {
    SumTables(main[|main| - 1], temp)
  }

  function SumTables(m: map<Pid, Total>, temp: seq<map<Pid, Total>>): map<Pid, Total> {
    if temp == [] then m
    else
      MapPlus(SumTables(m, temp[..|temp| - 1]), temp[|temp| - 1])
  }

  lemma {:induction false} SumTablesMeaning(m: map<Pid, Total>, temp: seq<map<Pid, Total>>, p: Pid)
    ensures Get(SumTables(m, temp), p) == Plus(Get(m, p), SumOf(temp, p))
  {
    if temp != [] {
      var front, t := temp[..|temp| - 1], temp[|temp| - 1];
      SumTablesMeaning(m, front, p);
      PlusAssociates(Get(m, p), SumOf(front, p), Get(t, p));
    }
  }

  function MapPlus(a: map<Pid, Total>, b: map<Pid, Total>): (r: map<Pid, Total>)
    ensures forall p :: Get(r, p) == Plus(Get(a, p), Get(b, p))
  {
    map p | p in a.Keys + b.Keys :: Plus(Get(a, p), Get(b, p))
  }

  function Next(st: State, ev: Event): State
    requires Enabled(st, ev)
  {
    match ev
    case Accum(s, x) =>
      var i, st' := SlotOf(st, s), st.(counted := st.counted + [x]);
      if st.half[st.view[s]].Real?
      then st'.(main := st.main[i := AddItem(st.main[i], x)])
      else st'.(temp := st.temp[i := AddItem(st.temp[i], x)], late := st.late + [x])
    case See(s) => st.(view := st.view[s := st.active])
    case Prepare =>
      st.(temp := Blank(|st.main|), half := st.half[1 - st.active := Temp], phase := Prepared,
          before := st.main, counted := [], late := [])
    case SwitchHalf => st.(active := 1 - st.active, phase := Switched)
    case Collect => st.(report := SumTables(map[], st.main), active := 1 - st.active, phase := Restored)
    case Consolidate =>
      st.(main := st.main[|st.main| - 1 := Merged(st.main, st.temp)], temp := Blank(|st.main|),
          half := [Real, Real], phase := Quiet)
  }

  function SumItems(xs: seq<Bucket>, p: Pid): Total {
    if xs == [] then Total(0, 0)
    else
      var x, t := xs[|xs| - 1], SumItems(xs[..|xs| - 1], p);
      if x.pid == p then Plus(t, Total(x.count, x.accumulator)) else t
  }

  /** Which half has which tables, and which half a scheduler may still see. */
  predicate Halves(st: State)
    requires Shape(st)
  {
    match st.phase
    case Quiet => st.half == [Real, Real] && Barrier(st)
    case Prepared => st.half[st.active].Real? && st.half[1 - st.active].Temp? && Barrier(st)
    case Switched => st.half[st.active].Temp? && st.half[1 - st.active].Real?
    case Restored => st.half[st.active].Real? && st.half[1 - st.active].Temp?
  }

  /** Nothing is lost and nothing is counted twice. */
  ghost predicate Conserved(st: State) {
    && |st.before| == |st.main|
    && (forall p :: Plus(SumOf(st.main, p), SumOf(st.temp, p)) == Plus(SumOf(st.before, p), SumItems(st.counted, p)))
    && (!st.phase.Quiet? ==> forall p :: SumOf(st.temp, p) == SumItems(st.late, p))
  }

  lemma {:induction false} SumBlank(n: nat, p: Pid)
    ensures SumOf(Blank(n), p) == Total(0, 0)
  {
    if n > 0 {
      SumBlank(n - 1, p);
      assert Blank(n)[..n - 1] == Blank(n - 1);
    }
  }

  lemma SumLastReplaced(tables: seq<map<Pid, Total>>, m: map<Pid, Total>, p: Pid)
    requires tables != []
    ensures SumOf(tables[|tables| - 1 := m], p) == Plus(SumOf(tables[..|tables| - 1], p), Get(m, p))
  {
    assert tables[|tables| - 1 := m][..|tables| - 1] == tables[..|tables| - 1];
  }

  lemma ItemsAppended(xs: seq<Bucket>, x: Bucket, p: Pid)
    ensures SumItems(xs + [x], p) == if x.pid == p then Plus(SumItems(xs, p), Total(x.count, x.accumulator)) else SumItems(xs, p)
  {
    assert (xs + [x])[..|xs|] == xs;
  }

  /** One more accumulation in the tables, and in the list of them. */
  lemma BothGrow(a: Total, b: Total, c: Total, d: Total, x: Total)
    requires Plus(a, b) == Plus(c, d)
    ensures Plus(Plus(a, x), b) == Plus(c, Plus(d, x)) && Plus(a, Plus(b, x)) == Plus(c, Plus(d, x))
  {
  }

  lemma AccumReal(st: State, s: nat, x: Bucket, p: Pid)
    requires Conserved(st) && Enabled(st, Accum(s, x)) && st.half[st.view[s]].Real?
    ensures var st' := Next(st, Accum(s, x));
      Plus(SumOf(st'.main, p), SumOf(st'.temp, p)) == Plus(SumOf(st'.before, p), SumItems(st'.counted, p))
  {
    SumAdded(st.main, SlotOf(st, s), x, p);
    ItemsAppended(st.counted, x, p);
    BothGrow(SumOf(st.main, p), SumOf(st.temp, p), SumOf(st.before, p), SumItems(st.counted, p), Total(x.count, x.accumulator));
  }

  lemma AccumTemp(st: State, s: nat, x: Bucket, p: Pid)
    requires Conserved(st) && Enabled(st, Accum(s, x)) && !st.half[st.view[s]].Real? && !st.phase.Quiet?
    ensures var st' := Next(st, Accum(s, x));
      && Plus(SumOf(st'.main, p), SumOf(st'.temp, p)) == Plus(SumOf(st'.before, p), SumItems(st'.counted, p))
      && SumOf(st'.temp, p) == SumItems(st'.late, p)
  {
    SumAdded(st.temp, SlotOf(st, s), x, p);
    ItemsAppended(st.counted, x, p);
    ItemsAppended(st.late, x, p);
    BothGrow(SumOf(st.main, p), SumOf(st.temp, p), SumOf(st.before, p), SumItems(st.counted, p), Total(x.count, x.accumulator));
  }

  lemma AccumConserves(st: State, s: nat, x: Bucket)
    requires Conserved(st) && Enabled(st, Accum(s, x))
    requires st.phase.Quiet? ==> st.half[st.view[s]].Real?
    ensures Conserved(Next(st, Accum(s, x)))
  {
    var st' := Next(st, Accum(s, x));
    forall p
      ensures Plus(SumOf(st'.main, p), SumOf(st'.temp, p)) == Plus(SumOf(st'.before, p), SumItems(st'.counted, p))
      ensures !st.phase.Quiet? ==> SumOf(st'.temp, p) == SumItems(st'.late, p)
    {
      if st.half[st.view[s]].Real? {
        AccumReal(st, s, x, p);
      } else {
        AccumTemp(st, s, x, p);
      }
    }
  }

  lemma PrepareConserves(st: State)
    requires Enabled(st, Prepare)
    ensures Conserved(Next(st, Prepare))
  {
    forall p
      ensures SumOf(Blank(|st.main|), p) == Total(0, 0)
    {
      SumBlank(|st.main|, p);
    }
  }

  lemma ConsolidateConserves(st: State)
    requires Conserved(st) && Enabled(st, Consolidate)
    ensures Conserved(Next(st, Consolidate))
  {
    var st' := Next(st, Consolidate);
    forall p
      ensures Plus(SumOf(st'.main, p), SumOf(st'.temp, p)) == Plus(SumOf(st'.before, p), SumItems(st'.counted, p))
    {
      SumBlank(|st.main|, p);
      SumTablesMeaning(st.main[|st.main| - 1], st.temp, p);
      SumLastReplaced(st.main, Merged(st.main, st.temp), p);
      PlusAssociates(SumOf(st.main[..|st.main| - 1], p), Get(st.main[|st.main| - 1], p), SumOf(st.temp, p));
    }
  }

  ghost predicate Inv(st: State) {
    Shape(st) && Halves(st) && Conserved(st)
  }

  lemma StepKeepsInv(st: State, ev: Event)
    requires Inv(st) && Enabled(st, ev)
    ensures Inv(Next(st, ev))
  {
    match ev
    case Accum(s, x) => AccumConserves(st, s, x);
    case Prepare => PrepareConserves(st);
    case Consolidate => ConsolidateConserves(st);
    case _ =>
  }

  // ----- whole runs

  predicate Run(states: seq<State>, events: seq<Event>) {
    && |states| == |events| + 1
    && forall i :: 0 <= i < |events| ==> Enabled(states[i], events[i]) && states[i + 1] == Next(states[i], events[i])
  }

  lemma {:induction false} RunKeepsInv(states: seq<State>, events: seq<Event>, i: nat)
    requires Run(states, events) && Inv(states[0]) && i < |states|
    ensures Inv(states[i])
  {
    if i > 0 {
      RunKeepsInv(states, events, i - 1);
      StepKeepsInv(states[i - 1], events[i - 1]);
    }
  }

  /** Everything accumulated by the events, in order. */
  function Accumulated(events: seq<Event>): seq<Bucket> {
    if events == [] then []
    else
      var front := Accumulated(events[..|events| - 1]);
      if events[|events| - 1].Accum? then front + [events[|events| - 1].x] else front
  }

  lemma CountedStep(st: State, ev: Event)
    requires Enabled(st, ev) && !ev.Prepare?
    ensures Next(st, ev).before == st.before
    ensures Next(st, ev).counted == if ev.Accum? then st.counted + [ev.x] else st.counted
  {
  }

  lemma {:induction false} CountedSincePrepare(states: seq<State>, events: seq<Event>, j: nat)
    requires Run(states, events) && 0 < j < |states| && events[0] == Prepare
    requires forall k :: 0 < k < j ==> !events[k].Prepare?
    ensures states[j].before == states[0].main && states[j].counted == Accumulated(events[..j])
  {
    assert events[..j][..j - 1] == events[..j - 1];
    if j > 1 {
      CountedSincePrepare(states, events, j - 1);
      CountedStep(states[j - 1], events[j - 1]);
    } else {
      assert Accumulated(events[..0]) == [];
      assert states[1] == Next(states[0], Prepare);
    }
  }

  /** When a collection is over, the real tables hold what they held before it plus
      everything any scheduler accumulated meanwhile. */
  lemma CollectionLosesNothing(states: seq<State>, events: seq<Event>, j: nat, p: Pid)
    requires Run(states, events) && Inv(states[0]) && j < |events| && events[0] == Prepare && events[j] == Consolidate
    requires forall k :: 0 < k <= j ==> !events[k].Prepare?
    ensures SumOf(states[j + 1].main, p) == Plus(SumOf(states[0].main, p), SumItems(Accumulated(events[..j + 1]), p))
  {
    RunKeepsInv(states, events, j);
    RunKeepsInv(states, events, j + 1);
    CountedSincePrepare(states, events, j + 1);
    SumBlank(|states[j].main|, p);
    assert states[j + 1].temp == Blank(|states[j].main|);
  }

  /** What is reported is the real tables at that moment, which nobody is then writing:
      what they held before plus everything accumulated that did not go to the
      temporary tables. */
  lemma ReportIsExact(states: seq<State>, events: seq<Event>, i: nat, p: Pid)
    requires Run(states, events) && Inv(states[0]) && 0 < i < |events| && events[0] == Prepare && events[i] == Collect
    requires forall k :: 0 < k < i ==> !events[k].Prepare?
    ensures Get(states[i + 1].report, p) == SumOf(states[i].main, p)
    ensures Plus(Get(states[i + 1].report, p), SumItems(states[i].late, p))
         == Plus(SumOf(states[0].main, p), SumItems(Accumulated(events[..i]), p))
    ensures forall s :: 0 <= s < |states[i].view| ==> states[i].view[s] < |states[i].half| && states[i].half[states[i].view[s]].Temp?
  {
    RunKeepsInv(states, events, i);
    CountedSincePrepare(states, events, i);
    SumTablesMeaning(map[], states[i].main, p);
    PlusAssociates(SumOf(states[i].main, p), Total(0, 0), Total(0, 0));
  }
}
