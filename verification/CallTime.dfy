module CallTime {
  // Call time tracing of one process (beam_bp.c).  In every trace session the process
  // has a current function, if that is traced, and the time at which it was last
  // accounted for; calls, returns and scheduling out add the time since then to the
  // table of the current function and scheduler.

  import opened Options

  type Func = nat

  /** One session: the psd entry of the process, and the tables of the traced functions,
      by function and scheduler. */
  datatype Session = Session(
    pbt: bool,                    // the psd entry exists
    ci: Option<Func>,
    accumulator: int,
    on: seq<bool>,                // whether the function has a call time breakpoint, with a table
    counting: seq<bool>,          // whether the breakpoint is active; a paused one keeps its table
    time: seq<seq<int>>,
    count: seq<seq<int>>,
    frames: seq<Option<Func>>,    // what the call_trace_return frames restore, latest last
    ran: int,                     // how long the process ran with a traced current function
    lost: int,                    // what had no breakpoint to go to, or went with it
    calls: int)                   // calls to functions, less those whose tables are gone

  datatype State = State(now: int, running: Option<nat>, sessions: seq<Session>, nfuncs: nat, nscheds: nat)

  // ----- sums

  function Sum(xs: seq<int>): int {
    if xs == [] then 0 else xs[0] + Sum(xs[1..])
  }

  function Zeroes(n: nat): seq<int> {
    seq(n, _ => 0)
  }

  function Total(rows: seq<seq<int>>): int {
    if rows == [] then 0 else Sum(rows[0]) + Total(rows[1..])
  }

  lemma {:induction false} SumUpdate(xs: seq<int>, i: nat, v: int)
    requires i < |xs|
    ensures Sum(xs[i := v]) == Sum(xs) - xs[i] + v
  {
    if i == 0 {
      assert xs[0 := v][1..] == xs[1..];
    } else {
      SumUpdate(xs[1..], i - 1, v);
      assert xs[i := v][1..] == xs[1..][i - 1 := v];
    }
  }

  lemma {:induction false} TotalUpdate(rows: seq<seq<int>>, f: nat, row: seq<int>)
    requires f < |rows|
    ensures Total(rows[f := row]) == Total(rows) - Sum(rows[f]) + Sum(row)
  {
    if f == 0 {
      assert rows[0 := row][1..] == rows[1..];
    } else {
      TotalUpdate(rows[1..], f - 1, row);
      assert rows[f := row][1..] == rows[1..][f - 1 := row];
    }
  }

  predicate Shaped(rows: seq<seq<int>>, nf: nat, ns: nat) {
    |rows| == nf && forall f :: 0 <= f < nf ==> |rows[f]| == ns
  }

  function AddAt(rows: seq<seq<int>>, f: nat, six: nat, d: int): seq<seq<int>>
    requires f < |rows| && six < |rows[f]|
  {
    rows[f := rows[f][six := rows[f][six] + d]]
  }

  lemma AddTotal(rows: seq<seq<int>>, f: nat, six: nat, d: int)
    requires f < |rows| && six < |rows[f]|
    ensures Total(AddAt(rows, f, six, d)) == Total(rows) + d
  {
    var row := rows[f][six := rows[f][six] + d];
    SumUpdate(rows[f], six, rows[f][six] + d);
    TotalUpdate(rows, f, row);
  }

  // ----- the steps, in one session

  predicate WfSession(s: Session, nf: nat, ns: nat) {
    && |s.on| == |s.counting| == nf && Shaped(s.time, nf, ns) && Shaped(s.count, nf, ns)
    && (s.ci.Some? ==> s.ci.value < nf) && (!s.pbt ==> s.ci.None?)
    && (forall i :: 0 <= i < |s.frames| && s.frames[i].Some? ==> s.frames[i].value < nf)
  }

  /** The time since the last account goes to the current function's breakpoint, if it
      still has one. */
  function Account(s: Session, six: nat, now: int, nf: nat, ns: nat): Session
    requires WfSession(s, nf, ns) && six < ns
  {
    if s.ci.None? then s
    else if s.on[s.ci.value] then s.(time := AddAt(s.time, s.ci.value, six, now - s.accumulator))
    else s.(lost := s.lost + (now - s.accumulator))
  }

  /** erts_trace_call_acc; push says whether a return frame is put on the stack. */
  function Call(s: Session, f: Func, push: bool, six: nat, now: int, nf: nat, ns: nat): Session
    requires WfSession(s, nf, ns) && six < ns && f < nf
  {
    var s1 := Account(s, six, now, nf, ns);
    s1.(pbt := true, count := AddAt(s1.count, f, six, 1), calls := s1.calls + 1,
      frames := if push then s.frames + [s.ci] else s.frames, ci := Some(f), accumulator := now)
  }

  /** erts_call_trace_return. */
  function Return(s: Session, six: nat, now: int, nf: nat, ns: nat): Session
    requires WfSession(s, nf, ns) && six < ns && s.frames != []
  {
    var s1 := Account(s, six, now, nf, ns);
    s1.(ci := s.frames[|s.frames| - 1], frames := s.frames[..|s.frames| - 1], accumulator := now)
  }

  /** The table of f is dropped, with what it holds, and f has an empty one. */
  function Drop(s: Session, f: Func, nf: nat, ns: nat): Session
    requires WfSession(s, nf, ns) && f < nf
  {
    s.(lost := s.lost + Sum(s.time[f]), calls := s.calls - Sum(s.count[f]),
      time := s.time[f := Zeroes(ns)], count := s.count[f := Zeroes(ns)])
  }

  /** A breakpoint is removed, with its table. */
  function Clear(s: Session, f: Func, nf: nat, ns: nat): Session
    requires WfSession(s, nf, ns) && f < nf
  {
    Drop(s, f, nf, ns).(on := s.on[f := false], counting := s.counting[f := false])
  }

  datatype BreakOp = Nop | Set | Restart | Pause

  /** Whether the request renews the table of a breakpoint that is set already. */
  predicate Resets(s: Session, f: Func, op: BreakOp) {
    f < |s.on| && s.on[f] && !op.Pause?
  }

  /** set_function_break: a breakpoint that is set already is paused or gets a new, empty
      table; a new one is made unless it is only to be restarted or paused and the session
      has nothing else (other) on the function. */
  function SetTime(s: Session, f: Func, op: BreakOp, other: bool, nf: nat, ns: nat): Session
    requires WfSession(s, nf, ns) && f < nf
  {
    if s.on[f] && op.Pause? then s.(counting := s.counting[f := false])
    else if !s.on[f] && !other && (op.Restart? || op.Pause?) then s
    else Drop(s, f, nf, ns).(on := s.on[f := true], counting := s.counting[f := true])
  }

  function Tick(s: Session, d: int, running: bool): Session {
    if running && s.ci.Some? then s.(ran := s.ran + d) else s
  }

  // ----- the steps of the process

  datatype Event =
    | Elapse(d: nat)
    | CallFunc(session: nat, f: Func, push: bool)
    | ReturnFrom(session: nat)
    | Unwind(session: nat, n: nat)            // an exception drops the latest frames
    | ScheduleOut
    | ScheduleIn(six: nat)
    | SetBreak(session: nat, f: Func, op: BreakOp, other: bool)
    | ClearBreak(session: nat, f: Func)

  predicate Wf(st: State) {
    && (forall i :: 0 <= i < |st.sessions| ==> WfSession(st.sessions[i], st.nfuncs, st.nscheds))
    && (st.running.Some? ==> st.running.value < st.nscheds)
  }

  predicate Enabled(st: State, e: Event) {
    match e
    case Elapse(_) => true
    case CallFunc(i, f, _) => st.running.Some? && i < |st.sessions| && f < st.nfuncs && f < |st.sessions[i].on| && f < |st.sessions[i].counting|
      && st.sessions[i].on[f] && st.sessions[i].counting[f]
    case ReturnFrom(i) => st.running.Some? && i < |st.sessions| && st.sessions[i].frames != []
    case Unwind(i, n) => i < |st.sessions| && n <= |st.sessions[i].frames|
    case ScheduleOut => st.running.Some?
    case ScheduleIn(six) => st.running.None? && six < st.nscheds
    case SetBreak(i, f, _, _) => i < |st.sessions| && f < st.nfuncs
    case ClearBreak(i, f) => i < |st.sessions| && f < st.nfuncs
  }

  function NextSession(st: State, e: Event, i: nat): Session
    requires Wf(st) && Enabled(st, e) && i < |st.sessions|
  {
    var s, nf, ns := st.sessions[i], st.nfuncs, st.nscheds;
    match e
    case Elapse(d) => Tick(s, d, st.running.Some?)
    case CallFunc(j, f, push) => if i == j then Call(s, f, push, st.running.value, st.now, nf, ns) else s
    case ReturnFrom(j) => if i == j then Return(s, st.running.value, st.now, nf, ns) else s
    case Unwind(j, n) => if i == j then s.(frames := s.frames[..|s.frames| - n]) else s
    case ScheduleOut => Account(s, st.running.value, st.now, nf, ns)
    case ScheduleIn(_) => if s.pbt then s.(accumulator := st.now) else s
    case SetBreak(j, f, op, other) => if i == j then SetTime(s, f, op, other, nf, ns) else s
    case ClearBreak(j, f) => if i == j then Clear(s, f, nf, ns) else s
  }

  function Next(st: State, e: Event): State
    requires Wf(st) && Enabled(st, e)
  {
    var sessions := seq(|st.sessions|, i requires 0 <= i < |st.sessions| => NextSession(st, e, i));
    State(
      if e.Elapse? then st.now + e.d else st.now,
      if e.ScheduleOut? then None else if e.ScheduleIn? then Some(e.six) else st.running,
      sessions, st.nfuncs, st.nscheds)
  }

  // ----- conservation

  function Open(s: Session, now: int, running: bool): int {
    if running && s.ci.Some? then now - s.accumulator else 0
  }

  /** What the tables hold, what is not accounted for yet and what was lost make up the
      time the process ran with a traced current function; and every call is counted. */
  predicate Conserved(s: Session, now: int, running: bool) {
    && Total(s.time) + Open(s, now, running) + s.lost == s.ran
    && Total(s.count) == s.calls
  }

  /** While a return frame is on the stack there is a current function; only the oldest
      frame can restore none. */
  predicate Framed(s: Session) {
    && (s.frames != [] ==> s.ci.Some?)
    && (forall i :: 0 < i < |s.frames| ==> s.frames[i].Some?)
  }

  /** Time goes forward, and a function without a breakpoint has an empty table. */
  predicate Forward(s: Session, now: int, running: bool, nf: nat, ns: nat)
    requires WfSession(s, nf, ns)
  {
    && (running && s.ci.Some? ==> s.accumulator <= now)
    && (forall f :: 0 <= f < nf ==> Sum(s.time[f]) >= 0)
    && (forall f :: 0 <= f < nf && !s.on[f] ==> Sum(s.time[f]) == 0)
  }

  predicate Good(s: Session, now: int, running: bool, nf: nat, ns: nat) {
    WfSession(s, nf, ns) && Conserved(s, now, running) && Framed(s) && Forward(s, now, running, nf, ns)
  }

  predicate Inv(st: State) {
    Wf(st) && forall i :: 0 <= i < |st.sessions| ==> Good(st.sessions[i], st.now, st.running.Some?, st.nfuncs, st.nscheds)
  }

  lemma AddRow(rows: seq<seq<int>>, f: nat, six: nat, d: int, g: nat)
    requires f < |rows| && six < |rows[f]| && g < |rows|
    ensures Sum(AddAt(rows, f, six, d)[g]) == Sum(rows[g]) + if g == f then d else 0
  {
    SumUpdate(rows[f], six, rows[f][six] + d);
  }

  lemma AccountForward(s: Session, six: nat, now: int, nf: nat, ns: nat)
    requires WfSession(s, nf, ns) && six < ns && Forward(s, now, true, nf, ns)
    ensures WfSession(Account(s, six, now, nf, ns), nf, ns) && Forward(Account(s, six, now, nf, ns), now, true, nf, ns)
  {
    if s.ci.Some? && s.on[s.ci.value] {
      forall g | 0 <= g < nf ensures Sum(AddAt(s.time, s.ci.value, six, now - s.accumulator)[g]) >= Sum(s.time[g]) {
        AddRow(s.time, s.ci.value, six, now - s.accumulator, g);
      }
      forall g | 0 <= g < nf && !s.on[g] ensures Sum(AddAt(s.time, s.ci.value, six, now - s.accumulator)[g]) == 0 {
        AddRow(s.time, s.ci.value, six, now - s.accumulator, g);
      }
    }
  }

  lemma AccountKeeps(s: Session, six: nat, now: int, nf: nat, ns: nat)
    requires WfSession(s, nf, ns) && six < ns && Conserved(s, now, true)
    ensures var s' := Account(s, six, now, nf, ns);
      WfSession(s', nf, ns) && Total(s'.time) + s'.lost == s'.ran && s'.count == s.count && s'.calls == s.calls
  {
    if s.ci.Some? && s.on[s.ci.value] {
      AddTotal(s.time, s.ci.value, six, now - s.accumulator);
    }
  }

  lemma CallKeeps(s: Session, f: Func, push: bool, six: nat, now: int, nf: nat, ns: nat)
    requires Good(s, now, true, nf, ns) && six < ns && f < nf
    ensures Good(Call(s, f, push, six, now, nf, ns), now, true, nf, ns)
  {
    AccountKeeps(s, six, now, nf, ns);
    AccountForward(s, six, now, nf, ns);
    AddTotal(s.count, f, six, 1);
  }

  lemma ReturnKeeps(s: Session, six: nat, now: int, nf: nat, ns: nat)
    requires Good(s, now, true, nf, ns) && six < ns && s.frames != []
    ensures Good(Return(s, six, now, nf, ns), now, true, nf, ns)
  {
    AccountKeeps(s, six, now, nf, ns);
    AccountForward(s, six, now, nf, ns);
  }

  lemma {:induction false} ZeroSum(n: nat)
    ensures Sum(Zeroes(n)) == 0
  {
    if n > 0 {
      ZeroSum(n - 1);
      assert Zeroes(n)[1..] == Zeroes(n - 1);
    }
  }

  lemma DropKeeps(s: Session, f: Func, now: int, running: bool, nf: nat, ns: nat)
    requires Good(s, now, running, nf, ns) && f < nf
    ensures Good(Drop(s, f, nf, ns), now, running, nf, ns) && Sum(Drop(s, f, nf, ns).time[f]) == 0
  {
    ZeroSum(ns);
    TotalUpdate(s.time, f, Zeroes(ns));
    TotalUpdate(s.count, f, Zeroes(ns));
  }

  lemma ClearKeeps(s: Session, f: Func, now: int, running: bool, nf: nat, ns: nat)
    requires Good(s, now, running, nf, ns) && f < nf
    ensures Good(Clear(s, f, nf, ns), now, running, nf, ns)
  {
    DropKeeps(s, f, now, running, nf, ns);
  }

  lemma SetKeeps(s: Session, f: Func, op: BreakOp, other: bool, now: int, running: bool, nf: nat, ns: nat)
    requires Good(s, now, running, nf, ns) && f < nf
    ensures Good(SetTime(s, f, op, other, nf, ns), now, running, nf, ns)
  {
    DropKeeps(s, f, now, running, nf, ns);
  }

  lemma NextSessionGood(st: State, e: Event, i: nat)
    requires Inv(st) && Enabled(st, e) && i < |st.sessions|
    ensures Good(NextSession(st, e, i), Next(st, e).now, Next(st, e).running.Some?, st.nfuncs, st.nscheds)
  {
    var s, nf, ns := st.sessions[i], st.nfuncs, st.nscheds;
    assert Good(s, st.now, st.running.Some?, nf, ns);
    match e
    case Elapse(d) =>
    case CallFunc(j, f, push) => CallKeeps(s, f, push, st.running.value, st.now, nf, ns);
    case ReturnFrom(j) => if i == j { ReturnKeeps(s, st.running.value, st.now, nf, ns); }
    case Unwind(j, n) =>
    case ScheduleOut =>
      AccountKeeps(s, st.running.value, st.now, nf, ns);
      AccountForward(s, st.running.value, st.now, nf, ns);
    case ScheduleIn(_) =>
    case SetBreak(j, f, op, other) => SetKeeps(s, f, op, other, st.now, st.running.Some?, nf, ns);
    case ClearBreak(j, f) => ClearKeeps(s, f, st.now, st.running.Some?, nf, ns);
  }

  lemma StepKeepsInv(st: State, e: Event)
    requires Inv(st) && Enabled(st, e)
    ensures Inv(Next(st, e))
  {
    forall i | 0 <= i < |st.sessions|
      ensures Good(Next(st, e).sessions[i], Next(st, e).now, Next(st, e).running.Some?, st.nfuncs, st.nscheds)
    {
      NextSessionGood(st, e, i);
    }
  }

  ghost predicate IsRun(st: State, es: seq<Event>, st': State)
    decreases |es|
  {
    if es == [] then st' == st
    else Wf(st) && Enabled(st, es[0]) && IsRun(Next(st, es[0]), es[1..], st')
  }

  lemma {:induction false} RunKeepsInv(st: State, es: seq<Event>, st': State)
    requires Inv(st) && IsRun(st, es, st')
    ensures Inv(st')
    decreases |es|
  {
    if es != [] {
      StepKeepsInv(st, es[0]);
      RunKeepsInv(Next(st, es[0]), es[1..], st');
    }
  }

  // ----- what is lost, exactly

  /** What a step loses in session i: the contents of a table that is removed or renewed,
      and time of a current function whose breakpoint is gone. */
  function Loss(st: State, e: Event, i: nat): int
    requires Wf(st) && Enabled(st, e) && i < |st.sessions|
  {
    var s := st.sessions[i];
    var gone := if s.ci.Some? && !s.on[s.ci.value] then st.now - s.accumulator else 0;
    match e
    case CallFunc(j, _, _) => if i == j then gone else 0
    case ReturnFrom(j) => if i == j then gone else 0
    case ScheduleOut => gone
    case SetBreak(j, f, op, _) => if i == j && Resets(s, f, op) then Sum(s.time[f]) else 0
    case ClearBreak(j, f) => if i == j then Sum(s.time[f]) else 0
    case _ => 0
  }

  lemma StepLoses(st: State, e: Event, i: nat)
    requires Inv(st) && Enabled(st, e) && i < |st.sessions|
    ensures Loss(st, e, i) >= 0 && Next(st, e).sessions[i].lost == st.sessions[i].lost + Loss(st, e, i)
  {
    assert Good(st.sessions[i], st.now, st.running.Some?, st.nfuncs, st.nscheds);
    assert Next(st, e).sessions[i] == NextSession(st, e, i);
  }

  /** What a run loses in session i. */
  ghost function RunLoss(st: State, es: seq<Event>, i: nat): int
    requires Inv(st) && i < |st.sessions|
    decreases |es|
  {
    if es == [] || !Enabled(st, es[0]) then 0
    else
      StepKeepsInv(st, es[0]);
      Loss(st, es[0], i) + RunLoss(Next(st, es[0]), es[1..], i)
  }

  /** Some step of the run removes or renews a table that is not empty, or accounts for
      time of a function whose breakpoint is gone. */
  ghost predicate SomeStepLoses(st: State, es: seq<Event>, i: nat)
    requires Inv(st) && i < |st.sessions|
    decreases |es|
  {
    if es == [] || !Enabled(st, es[0]) then false
    else
      StepKeepsInv(st, es[0]);
      Loss(st, es[0], i) > 0 || SomeStepLoses(Next(st, es[0]), es[1..], i)
  }

  lemma {:induction false} RunLoses(st: State, es: seq<Event>, st': State, i: nat)
    requires Inv(st) && IsRun(st, es, st') && i < |st.sessions|
    ensures Inv(st') && i < |st'.sessions| && st'.sessions[i].lost == st.sessions[i].lost + RunLoss(st, es, i)
    ensures RunLoss(st, es, i) >= 0 && (RunLoss(st, es, i) > 0 <==> SomeStepLoses(st, es, i))
    decreases |es|
  {
    if es != [] {
      StepKeepsInv(st, es[0]);
      StepLoses(st, es[0], i);
      RunLoses(Next(st, es[0]), es[1..], st', i);
    }
  }

  /** In every run that starts with nothing lost, the session's tables over all functions
      and schedulers, plus the open interval, fall short of the time that the process ran
      with a traced current function by exactly what the run lost: they hold all of it
      if and only if no step lost anything. */
  lemma TimeIsConserved(st: State, es: seq<Event>, st': State, i: nat)
    requires Inv(st) && IsRun(st, es, st') && i < |st.sessions| && st.sessions[i].lost == 0
    ensures i < |st'.sessions|
    ensures var s := st'.sessions[i];
      && Total(s.time) + Open(s, st'.now, st'.running.Some?) + RunLoss(st, es, i) == s.ran
      && (Total(s.time) + Open(s, st'.now, st'.running.Some?) == s.ran <==> !SomeStepLoses(st, es, i))
  {
    RunLoses(st, es, st', i);
    assert Good(st'.sessions[i], st'.now, st'.running.Some?, st'.nfuncs, st'.nscheds);
  }

  // ----- runs that lose nothing

  predicate OnAt(s: Session, f: Func) {
    f < |s.on| && s.on[f]
  }

  /** Every function that is or can become the current one has its breakpoint. */
  predicate AllOn(st: State, i: nat) {
    && i < |st.sessions|
    && (st.sessions[i].ci.Some? ==> OnAt(st.sessions[i], st.sessions[i].ci.value))
    && forall k :: 0 <= k < |st.sessions[i].frames| && st.sessions[i].frames[k].Some? ==> OnAt(st.sessions[i], st.sessions[i].frames[k].value)
  }

  /** The breakpoints of session i stay set: none is removed, and none that is set is set
      again or restarted. */
  predicate StaysSet(st: State, e: Event, i: nat) {
    && (e.ClearBreak? ==> e.session != i)
    && (e.SetBreak? && e.session == i && i < |st.sessions| ==> !Resets(st.sessions[i], e.f, e.op))
  }

  ghost predicate AllStaySet(st: State, es: seq<Event>, i: nat)
    decreases |es|
  {
    es != [] ==> StaysSet(st, es[0], i) && (Wf(st) && Enabled(st, es[0]) ==> AllStaySet(Next(st, es[0]), es[1..], i))
  }

  lemma StepStaysOn(st: State, e: Event, i: nat)
    requires Inv(st) && Enabled(st, e) && AllOn(st, i) && StaysSet(st, e, i)
    ensures AllOn(Next(st, e), i) && Loss(st, e, i) == 0
  {
    assert Next(st, e).sessions[i] == NextSession(st, e, i);
  }

  /** While the breakpoints stay set nothing is lost. */
  lemma {:induction false} RunLosesNothing(st: State, es: seq<Event>, st': State, i: nat)
    requires Inv(st) && IsRun(st, es, st') && AllOn(st, i) && AllStaySet(st, es, i)
    ensures AllOn(st', i) && !SomeStepLoses(st, es, i)
    decreases |es|
  {
    if es != [] {
      StepKeepsInv(st, es[0]);
      StepStaysOn(st, es[0], i);
      RunLosesNothing(Next(st, es[0]), es[1..], st', i);
    }
  }

  // ----- a breakpoint that is set twice

  const FRESH := Session(false, None, 0, [false], [false], [[0]], [[0]], [], 0, 0, 0)

  /** f has been called, and the process has run since then. */
  const CALLED := Session(true, Some(0), 0, [true], [true], [[0]], [[1]], [None], 5, 0, 1)

  lemma FirstSet()
    ensures SetTime(FRESH, 0, Set, false, 1, 1) == FRESH.(on := [true], counting := [true])
  {
    assert [false][0 := true] == [true];
    assert Zeroes(1) == [0];
    assert [[0]][0 := [0]] == [[0]];
  }

  lemma FirstCall()
    ensures Call(FRESH.(on := [true], counting := [true]), 0, true, 0, 0, 1, 1) == CALLED.(ran := 0)
  {
    assert [0][0 := 0 + 1] == [1];
    assert [[0]][0 := [1]] == [[1]];
  }

  lemma AccountFive()
    ensures Account(CALLED, 0, 5, 1, 1) == CALLED.(time := [[5]])
  {
    assert [0][0 := 0 + (5 - 0)] == [5];
    assert [[0]][0 := [5]] == [[5]];
  }

  lemma SecondSet()
    ensures var s := SetTime(CALLED.(time := [[5]]), 0, Set, false, 1, 1); s.ran == 5 && s.lost == 5 && s.time == [[0]] && s.on == [true]
  {
    assert Zeroes(1) == [0];
    assert [[5]][0 := [0]] == [[0]];
    assert [true][0 := true] == [true];
    assert [5][1..] == [];
    assert Sum([5]) == 5;
  }

  /** A process with one session, one function and one scheduler. */
  function Alone(now: int, running: Option<nat>, s: Session): State {
    State(now, running, [s], 1, 1)
  }

  /** From st, the step e leads to st'. */
  predicate Leads(st: State, e: Event, st': State) {
    Wf(st) && Enabled(st, e) && Next(st, e) == st'
  }

  lemma OneStep(st: State, e: Event)
    requires Wf(st) && Enabled(st, e) && |st.sessions| == 1
    ensures Next(st, e).sessions == [NextSession(st, e, 0)]
  {
  }

  lemma LeadsSet()
    ensures Leads(Alone(0, None, FRESH), SetBreak(0, 0, Set, false), Alone(0, None, FRESH.(on := [true], counting := [true])))
  {
    FirstSet();
    OneStep(Alone(0, None, FRESH), SetBreak(0, 0, Set, false));
  }

  lemma LeadsIn(s: Session)
    requires WfSession(s, 1, 1) && !s.pbt
    ensures Leads(Alone(0, None, s), ScheduleIn(0), Alone(0, Some(0), s))
  {
    OneStep(Alone(0, None, s), ScheduleIn(0));
  }

  lemma LeadsCall()
    ensures Leads(Alone(0, Some(0), FRESH.(on := [true], counting := [true])), CallFunc(0, 0, true), Alone(0, Some(0), CALLED.(ran := 0)))
  {
    FirstCall();
    OneStep(Alone(0, Some(0), FRESH.(on := [true], counting := [true])), CallFunc(0, 0, true));
  }

  lemma LeadsElapse()
    ensures Leads(Alone(0, Some(0), CALLED.(ran := 0)), Elapse(5), Alone(5, Some(0), CALLED))
  {
    OneStep(Alone(0, Some(0), CALLED.(ran := 0)), Elapse(5));
  }

  lemma LeadsOut()
    ensures Leads(Alone(5, Some(0), CALLED), ScheduleOut, Alone(5, None, CALLED.(time := [[5]])))
  {
    AccountFive();
    OneStep(Alone(5, Some(0), CALLED), ScheduleOut);
  }

  lemma LeadsReset() returns (st: State)
    ensures Leads(Alone(5, None, CALLED.(time := [[5]])), SetBreak(0, 0, Set, false), st)
    ensures |st.sessions| == 1 && st.sessions[0].on == [true] && st.sessions[0].ran == 5 && st.sessions[0].lost == 5 && st.sessions[0].time == [[0]]
  {
    SecondSet();
    OneStep(Alone(5, None, CALLED.(time := [[5]])), SetBreak(0, 0, Set, false));
    st := Next(Alone(5, None, CALLED.(time := [[5]])), SetBreak(0, 0, Set, false));
  }

  lemma RunCons(st: State, e: Event, st1: State, es: seq<Event>, st': State)
    requires Leads(st, e, st1) && IsRun(st1, es, st')
    ensures IsRun(st, [e] + es, st')
  {
    assert ([e] + es)[1..] == es;
  }

  /** The process has run for five units in a function whose breakpoint is then set again:
      the breakpoint is set all the time, and the time is gone. */
  lemma SettingTwiceLoses() returns (es: seq<Event>, st: State)
    ensures es == [SetBreak(0, 0, Set, false), ScheduleIn(0), CallFunc(0, 0, true), Elapse(5), ScheduleOut, SetBreak(0, 0, Set, false)]
    ensures IsRun(Alone(0, None, FRESH), es, st)
    ensures |st.sessions| == 1 && st.sessions[0].on == [true] && st.sessions[0].ran == 5 && st.sessions[0].lost == 5 && st.sessions[0].time == [[0]]
  {
    var f := FRESH.(on := [true], counting := [true]);
    LeadsSet();
    LeadsIn(f);
    LeadsCall();
    LeadsElapse();
    LeadsOut();
    st := LeadsReset();
    es := [];
    RunCons(Alone(5, None, CALLED.(time := [[5]])), SetBreak(0, 0, Set, false), st, es, st);
    es := [SetBreak(0, 0, Set, false)] + es;
    RunCons(Alone(5, Some(0), CALLED), ScheduleOut, Alone(5, None, CALLED.(time := [[5]])), es, st);
    es := [ScheduleOut] + es;
    RunCons(Alone(0, Some(0), CALLED.(ran := 0)), Elapse(5), Alone(5, Some(0), CALLED), es, st);
    es := [Elapse(5)] + es;
    RunCons(Alone(0, Some(0), f), CallFunc(0, 0, true), Alone(0, Some(0), CALLED.(ran := 0)), es, st);
    es := [CallFunc(0, 0, true)] + es;
    RunCons(Alone(0, None, f), ScheduleIn(0), Alone(0, Some(0), f), es, st);
    es := [ScheduleIn(0)] + es;
    RunCons(Alone(0, None, FRESH), SetBreak(0, 0, Set, false), Alone(0, None, f), es, st);
    es := [SetBreak(0, 0, Set, false)] + es;
  }

  // ----- the operations in place

  class CallTimer {
    const nf: nat
    const ns: nat
    var sessions: seq<Session>

    ghost predicate Valid()
      reads this
    {
      forall i :: 0 <= i < |sessions| ==> WfSession(sessions[i], nf, ns)
    }

    constructor (nf: nat, ns: nat, sessions: seq<Session>)
      requires forall i :: 0 <= i < |sessions| ==> WfSession(sessions[i], nf, ns)
      ensures Valid() && this.nf == nf && this.ns == ns && this.sessions == sessions
    {
      this.nf, this.ns, this.sessions := nf, ns, sessions;
    }

    /** Adds the time since the last account to the current function's table. */
    method AddTime(i: nat, six: nat, now: int)
      requires Valid() && i < |sessions| && six < ns
      modifies this
      ensures Valid() && WfSession(old(sessions[i]), nf, ns) && sessions == old(sessions)[i := Account(old(sessions[i]), six, now, nf, ns)]
    {
      var s := sessions[i];
      if s.ci.Some? {
        var d := now - s.accumulator;
        if s.on[s.ci.value] {
          sessions := sessions[i := s.(time := AddAt(s.time, s.ci.value, six, d))];
        } else {
          sessions := sessions[i := s.(lost := s.lost + d)];
        }
      }
    }

    method TraceCallAcc(i: nat, f: Func, push: bool, six: nat, now: int)
      requires Valid() && i < |sessions| && six < ns && f < nf
      modifies this
      ensures WfSession(old(sessions[i]), nf, ns) && sessions == old(sessions)[i := Call(old(sessions[i]), f, push, six, now, nf, ns)]
    {
      if !sessions[i].pbt {
        sessions := sessions[i := sessions[i].(pbt := true)];
      } else {
        AddTime(i, six, now);
      }
      var s := sessions[i];
      var prev := s.ci;
      s := s.(count := AddAt(s.count, f, six, 1), calls := s.calls + 1);
      s := s.(ci := Some(f), accumulator := now);
      if push {
        s := s.(frames := s.frames + [prev]);
      }
      sessions := sessions[i := s];
    }

    method CallTraceReturn(i: nat, six: nat, now: int)
      requires Valid() && i < |sessions| && six < ns && sessions[i].frames != []
      modifies this
      ensures WfSession(old(sessions[i]), nf, ns) && sessions == old(sessions)[i := Return(old(sessions[i]), six, now, nf, ns)]
    {
      AddTime(i, six, now);
      var s := sessions[i];
      var last := |s.frames| - 1;
      sessions := sessions[i := s.(ci := s.frames[last], frames := s.frames[..last], accumulator := now)];
    }

    method TimeOut(six: nat, now: int)
      requires Valid() && six < ns
      modifies this
      ensures |sessions| == |old(sessions)| && forall j :: 0 <= j < |sessions| ==>
        WfSession(old(sessions)[j], nf, ns) && sessions[j] == Account(old(sessions)[j], six, now, nf, ns)
    {
      var i := 0;
      ghost var was := sessions;
      while i < |sessions|
        invariant i <= |sessions| == |was| && Valid()
        invariant forall j :: 0 <= j < i ==> WfSession(was[j], nf, ns) && sessions[j] == Account(was[j], six, now, nf, ns)
        invariant forall j :: i <= j < |was| ==> sessions[j] == was[j]
      {
        AddTime(i, six, now);
        i := i + 1;
      }
    }

    method TimeIn(now: int)
      requires Valid()
      modifies this
      ensures |sessions| == |old(sessions)| && forall j :: 0 <= j < |sessions| ==>
        sessions[j] == if old(sessions)[j].pbt then old(sessions)[j].(accumulator := now) else old(sessions)[j]
    {
      var i := 0;
      while i < |sessions|
        invariant i <= |sessions| == |old(sessions)|
        invariant forall j :: 0 <= j < i ==> sessions[j] == if old(sessions)[j].pbt then old(sessions)[j].(accumulator := now) else old(sessions)[j]
        invariant forall j :: i <= j < |sessions| ==> sessions[j] == old(sessions)[j]
      {
        if sessions[i].pbt {
          sessions := sessions[i := sessions[i].(accumulator := now)];
        }
        i := i + 1;
      }
    }
  }
}
