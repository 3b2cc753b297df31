/**
 The scheduler wakeup condition (pon_condition.c): a lock-free stack of ready
 processes, a `satisfied` flag and an eventfd.  Any number of notifiers run
 against one scheduler; every read or write of a shared field, compare and
 swap, and system call is one step, so a step sequence is an interleaving.
 */
module PonCondition {
  type Proc = nat
  type Thread = nat

  /** Where a notifier is, after its push. */
  datatype NotifierPc = Check | Set | Write

  /** Where the scheduler is. */
  datatype SchedulerPc =
    | Out                             // not inside any call
    // wait
    | Load
    | Swap(head: Proc)
    | Reset                           // list taken, flag not yet cleared
    | Drain
    | Test                            // saw an empty list
    | Read                            // saw the flag set
    | ClearRetry
    | ClearSleep
    | Sleep                           // in epoll_wait
    | Woken
    // try_dequeue
    | TryLoad
    | TrySwap(head: Proc, tail: seq<Proc>)
    | TryReset

  datatype State = State(
    ready: seq<Proc>,                 // head first
    satisfied: bool,
    event: nat,                       // the eventfd counter
    notifiers: map<Thread, NotifierPc>,
    pc: SchedulerPc,
    // history
    notified: multiset<Proc>,
    delivered: multiset<Proc>)

  datatype Event =
    | Notify(t: Thread, p: Proc)      // the push
    | Advance(t: Thread)              // the next step of a notifier
    | CallWait
    | CallTryDequeue
    | Scheduler                       // the next step of the scheduler
    | OtherDescriptor                 // epoll_wait returns for another descriptor

  function Init(): State {
    State([], false, 0, map[], Out, multiset{}, multiset{})
  }

  predicate Enabled(st: State, ev: Event) {
    match ev
    // the list is threaded through the process, so it must not be in it already
    case Notify(t, p) => t !in st.notifiers && p !in st.ready
    case Advance(t) => t in st.notifiers
    case CallWait => st.pc.Out?
    case CallTryDequeue => st.pc.Out?
    case Scheduler => !st.pc.Out? && (st.pc.Sleep? ==> st.event > 0)
    case OtherDescriptor => st.pc.Sleep?
  }

  function Next(st: State, ev: Event): State
    requires Enabled(st, ev)
  {
    match ev
    case Notify(t, p) =>
      st.(ready := [p] + st.ready, notifiers := st.notifiers[t := Check],
          notified := st.notified + multiset{p})
    case Advance(t) =>
      (match st.notifiers[t]
       case Check =>
         if st.satisfied then st.(notifiers := st.notifiers - {t})
         else st.(notifiers := st.notifiers[t := Set])
       case Set => st.(satisfied := true, notifiers := st.notifiers[t := Write])
       case Write => st.(event := st.event + 1, notifiers := st.notifiers - {t}))
    case CallWait => st.(pc := Load)
    case CallTryDequeue => st.(pc := TryLoad)
    case Scheduler => SchedulerStep(st)
    case OtherDescriptor => st.(pc := Woken)
  }

  function SchedulerStep(st: State): State
    requires !st.pc.Out?
  {
    match st.pc
    case Load => st.(pc := if st.ready == [] then Test else Swap(st.ready[0]))
    case Swap(h) =>
      if st.ready != [] && st.ready[0] == h
      then st.(ready := [], delivered := st.delivered + multiset(st.ready), pc := Reset)
      else st.(pc := Load)
    case Reset => st.(satisfied := false, pc := Drain)
    case Drain => if st.event > 0 then st.(event := 0) else st.(pc := Out)
    case Test => st.(pc := if st.satisfied then Read else Sleep)
    case Read => if st.event > 0 then st.(event := 0, pc := ClearRetry) else st.(pc := ClearSleep)
    case ClearRetry => st.(satisfied := false, pc := Load)
    case ClearSleep => st.(satisfied := false, pc := Sleep)
    case Sleep => st.(pc := Woken)
    case Woken => st.(satisfied := true, pc := Load)
    case TryLoad => if st.ready == [] then st.(pc := Out) else st.(pc := TrySwap(st.ready[0], st.ready[1..]))
    case TrySwap(h, tail) =>
      if st.ready != [] && st.ready[0] == h
      then st.(ready := tail, delivered := st.delivered + multiset{h}, pc := if tail == [] then TryReset else Out)
      else st.(pc := Out)
    case TryReset => st.(satisfied := false, pc := Out)
  }

  // ----- no process is lost or delivered twice

  predicate Distinct(q: seq<Proc>) {
    forall i, j :: 0 <= i < j < |q| ==> q[i] != q[j]
  }

  /** The tail a try_dequeue read stays below whatever is pushed meanwhile. */
  predicate SnapshotKept(st: State) {
    st.pc.TrySwap? ==>
      var k := |st.ready| - |st.pc.tail| - 1;
      k >= 0 && st.ready[k] == st.pc.head && st.ready[k + 1..] == st.pc.tail
  }

  predicate Conserved(st: State) {
    && st.notified == multiset(st.ready) + st.delivered
    && Distinct(st.ready)
    && SnapshotKept(st)
  }

  lemma DequeueConserves(st: State)
    requires Conserved(st) && st.pc.TrySwap?
    ensures Conserved(SchedulerStep(st))
  {
    if st.ready != [] && st.ready[0] == st.pc.head {
      HeadIsSnapshot(st);
      HeadTail(st.pc.head, st.pc.tail);
      Moved(st.pc.head, multiset(st.pc.tail), st.delivered);
    }
  }

  lemma Moved(p: Proc, rest: multiset<Proc>, delivered: multiset<Proc>)
    ensures multiset{p} + rest + delivered == rest + (delivered + multiset{p})
  {
  }

  /** No process is twice in the list, so that a head seen again means the same list. */
  lemma HeadIsSnapshot(st: State)
    requires Distinct(st.ready) && SnapshotKept(st) && st.pc.TrySwap? && st.ready != [] && st.ready[0] == st.pc.head
    ensures st.ready == [st.pc.head] + st.pc.tail
  {
    var k := |st.ready| - |st.pc.tail| - 1;
    assert k == 0;
  }

  lemma HeadTail(p: Proc, tail: seq<Proc>)
    ensures multiset([p] + tail) == multiset{p} + multiset(tail)
    ensures Distinct([p] + tail) ==> Distinct(tail)
  {
    assert forall i :: 0 <= i < |tail| ==> ([p] + tail)[i + 1] == tail[i];
  }

  lemma PushConserves(st: State, t: Thread, p: Proc)
    requires Conserved(st) && Enabled(st, Notify(t, p))
    ensures Conserved(Next(st, Notify(t, p)))
  {
    var st' := Next(st, Notify(t, p));
    assert multiset(st'.ready) == multiset{p} + multiset(st.ready);
    if st.pc.TrySwap? {
      var k := |st.ready| - |st.pc.tail| - 1;
      assert st'.ready[k + 1] == st.ready[k];
      assert st'.ready[k + 2..] == st.ready[k + 1..];
    }
  }

  lemma QuietConserves(st: State, st': State)
    requires Conserved(st) && st'.ready == st.ready && st'.notified == st.notified && st'.delivered == st.delivered
    requires st'.pc.TrySwap? ==> st'.pc == st.pc
    ensures Conserved(st')
  {
  }

  predicate TakesFromList(pc: SchedulerPc) {
    pc.Swap? || pc.TryLoad? || pc.TrySwap?
  }

  lemma QuietStep(st: State, ev: Event)
    requires Enabled(st, ev) && !ev.Notify? && (ev.Scheduler? ==> !TakesFromList(st.pc))
    ensures var st' := Next(st, ev);
            && st'.ready == st.ready && st'.notified == st.notified && st'.delivered == st.delivered
            && (st'.pc.TrySwap? ==> st'.pc == st.pc)
  {
  }

  lemma TakeConserves(st: State)
    requires Conserved(st) && (st.pc.Swap? || st.pc.TryLoad?)
    ensures Conserved(SchedulerStep(st))
  {
    var st' := SchedulerStep(st);
    assert st'.notified == multiset(st'.ready) + st'.delivered;
  }

  /** In every interleaving, each process notified is ready or was delivered, once. */
  lemma StepConserves(st: State, ev: Event)
    requires Conserved(st) && Enabled(st, ev)
    ensures Conserved(Next(st, ev))
  {
    if ev.Notify? {
      PushConserves(st, ev.t, ev.p);
    } else if !ev.Scheduler? || !TakesFromList(st.pc) {
      QuietStep(st, ev);
      QuietConserves(st, Next(st, ev));
    } else if st.pc.TrySwap? {
      DequeueConserves(st);
    } else {
      TakeConserves(st);
    }
  }

  // ----- wakeups

  /** A write to the eventfd has happened or is certain to follow. */
  predicate Coming(st: State) {
    st.event > 0 || exists t :: t in st.notifiers && (st.notifiers[t].Set? || st.notifiers[t].Write?)
  }

  predicate Checking(st: State) {
    exists t :: t in st.notifiers && st.notifiers[t].Check?
  }

  /** The flag is set only while there is a reason for the scheduler not to sleep. */
  predicate Armed(st: State) {
    st.satisfied ==> st.ready != [] || Coming(st)
  }

  /** The scheduler sleeps, a process is ready, and no notifier is left to wake it. */
  predicate Lost(st: State) {
    st.pc.Sleep? && st.ready != [] && st.event == 0 && st.notifiers == map[]
  }

  /** What holds at each point of a wait that was entered armed. */
  predicate WaitInv(st: State) {
    match st.pc
    case Load => Armed(st)
    case Swap(_) => st.ready != []
    case Reset => true
    case Drain => true
    case Test => (st.satisfied ==> Coming(st)) && (st.ready != [] ==> Coming(st) || Checking(st))
    case Read => st.satisfied && Coming(st)
    case ClearRetry => true
    case ClearSleep => Coming(st)
    case Sleep => (st.satisfied ==> Coming(st)) && (st.ready != [] ==> Coming(st) || (Checking(st) && !st.satisfied))
    case Woken => st.event > 0
    case _ => true
  }

  predicate InWait(pc: SchedulerPc) {
    !pc.Out? && !pc.TryLoad? && !pc.TrySwap? && !pc.TryReset?
  }

  /** Coming only stops when the scheduler reads the eventfd. */
  lemma ComingStays(st: State, ev: Event)
    requires Enabled(st, ev) && Coming(st)
    requires ev.Scheduler? ==> !st.pc.Drain? && !st.pc.Read?
    ensures Coming(Next(st, ev))
  {
    var st' := Next(st, ev);
    if st.event == 0 {
      var t :| t in st.notifiers && (st.notifiers[t].Set? || st.notifiers[t].Write?);
      if ev != Advance(t) {
        assert t in st'.notifiers && st'.notifiers[t] == st.notifiers[t];
      } else if st.notifiers[t].Set? {
        assert st'.notifiers[t].Write?;
      }
    }
  }

  lemma CheckingStays(st: State, ev: Event)
    requires Enabled(st, ev) && Checking(st) && !st.satisfied
    ensures Checking(Next(st, ev)) || Coming(Next(st, ev))
  {
    var st' := Next(st, ev);
    var t :| t in st.notifiers && st.notifiers[t].Check?;
    if ev == Advance(t) {
      assert st'.notifiers[t].Set?;
    } else {
      NotifierStays(st, ev, t);
    }
  }

  /** A notifier moves only by its own steps. */
  lemma NotifierStays(st: State, ev: Event, t: Thread)
    requires Enabled(st, ev) && t in st.notifiers && ev != Advance(t)
    ensures t in Next(st, ev).notifiers && Next(st, ev).notifiers[t] == st.notifiers[t]
  {
    if ev.Scheduler? {
      SchedulerKeepsNotifiers(st);
    }
  }

  lemma SchedulerKeepsNotifiers(st: State)
    requires !st.pc.Out?
    ensures SchedulerStep(st).notifiers == st.notifiers
  {
  }

  lemma WaitKeeps(st: State, ev: Event)
    requires InWait(st.pc) && WaitInv(st) && Enabled(st, ev) && !ev.OtherDescriptor?
    ensures WaitInv(Next(st, ev))
  {
    var st' := Next(st, ev);
    if Coming(st) && (ev.Scheduler? ==> !st.pc.Drain? && !st.pc.Read?) {
      ComingStays(st, ev);
    }
    if Checking(st) && !st.satisfied {
      CheckingStays(st, ev);
    }
    match ev {
      case Notify(t, p) => assert st'.notifiers[t].Check?;
      case Advance(t) =>
        if st.notifiers[t].Set? {
          assert st'.notifiers[t].Write?;
        }
      case _ =>
    }
  }

  // ----- whole runs

  predicate Run(states: seq<State>, events: seq<Event>) {
    && |states| == |events| + 1
    && (forall i :: 0 <= i < |events| ==> !events[i].OtherDescriptor?)
    && (forall i :: 0 <= i < |events| ==> Enabled(states[i], events[i]) && states[i + 1] == Next(states[i], events[i]))
  }

  lemma Prepend(st: State, ev: Event, states: seq<State>, events: seq<Event>)
    requires Run(states, events) && Enabled(st, ev) && !ev.OtherDescriptor? && states[0] == Next(st, ev)
    ensures Run([st] + states, [ev] + events)
  {
  }

  predicate InsideWait(states: seq<State>) {
    forall i :: 0 <= i < |states| ==> InWait(states[i].pc)
  }

  /** From st, at the start of a wait, this wait can end up asleep with work queued. */
  ghost predicate CanLose(st: State) {
    exists states, events :: Run(states, events) && InsideWait(states) && states[0] == st && Lost(states[|states| - 1])
  }

  lemma {:induction false} WaitRunKeeps(states: seq<State>, events: seq<Event>, i: nat)
    requires Run(states, events) && InsideWait(states) && WaitInv(states[0]) && i < |states|
    ensures WaitInv(states[i])
  {
    if i > 0 {
      WaitRunKeeps(states, events, i - 1);
      WaitKeeps(states[i - 1], events[i - 1]);
    }
  }

  /** The flag is up, nothing is queued, and nobody will write the eventfd. */
  predicate Poisoned(st: State) {
    st.satisfied && st.ready == [] && !Coming(st)
  }

  lemma {:induction false} PoisonedLoses(st: State) returns (states: seq<State>, events: seq<Event>)
    requires st.pc.Test? && Poisoned(st)
    ensures Run(states, events) && InsideWait(states) && states[0] == st && Lost(states[|states| - 1])
    decreases |st.notifiers.Keys|
  {
    if st.notifiers != map[] {
      var t :| t in st.notifiers;
      assert st.notifiers[t].Check?;
      var next := Next(st, Advance(t));
      assert next.notifiers.Keys == st.notifiers.Keys - {t};
      states, events := PoisonedLoses(next);
      Prepend(st, Advance(t), states, events);
      states, events := [st] + states, [Advance(t)] + events;
    } else {
      var a := Next(st, Notify(0, 0));
      var b := Next(a, Advance(0));
      var c := Next(b, Scheduler);
      var d := Next(c, Scheduler);
      var e := Next(d, Scheduler);
      assert b.notifiers == map[];
      states, events := [st, a, b, c, d, e], [Notify(0, 0), Advance(0), Scheduler, Scheduler, Scheduler];
    }
  }

  /** A wait can lose a wakeup exactly when it is entered with the flag up, the list
      empty, the eventfd at zero and no write to it under way. */
  lemma WaitLosesIffUnarmed(st: State)
    requires st.pc.Load?
    ensures CanLose(st) <==> !Armed(st)
  {
    if Armed(st) {
      forall states, events | Run(states, events) && InsideWait(states) && states[0] == st
        ensures !Lost(states[|states| - 1])
      {
        WaitRunKeeps(states, events, |states| - 1);
      }
    } else {
      var states, events := PoisonedLoses(Next(st, Scheduler));
      Prepend(st, Scheduler, states, events);
    }
  }

  // ----- how a wait comes to be entered unarmed

  /** The list just taken was everything, and some notifier has yet to set the flag. */
  predicate Exposed(st: State) {
    st.ready == [] && exists t :: t in st.notifiers && (st.notifiers[t].Check? || st.notifiers[t].Set?)
  }

  predicate Returning(states: seq<State>) {
    && states != [] && states[|states| - 1].pc.Out?
    && forall i :: 0 <= i < |states| - 1 ==> states[i].pc.Reset? || states[i].pc.Drain?
  }

  /** From st, where a wait has just taken the list, it can return unarmed. */
  ghost predicate CanReturnUnarmed(st: State) {
    exists states, events :: Run(states, events) && Returning(states) && states[0] == st && !Armed(states[|states| - 1])
  }

  predicate DrainInv(st: State) {
    (st.pc.Reset? ==> !Exposed(st)) &&
    (st.pc.Drain? ==> st.ready != [] || (!st.satisfied && !Exposed(st))) &&
    (st.pc.Out? ==> Armed(st))
  }

  lemma DrainKeeps(st: State, ev: Event)
    requires (st.pc.Reset? || st.pc.Drain?) && DrainInv(st) && Enabled(st, ev)
    ensures DrainInv(Next(st, ev))
  {
  }

  lemma {:induction false} ReturnKeeps(states: seq<State>, events: seq<Event>, i: nat)
    requires Run(states, events) && Returning(states) && DrainInv(states[0]) && i < |states|
    ensures DrainInv(states[i])
  {
    if i > 0 {
      ReturnKeeps(states, events, i - 1);
      DrainKeeps(states[i - 1], events[i - 1]);
    }
  }

  function At(st: State, pc: NotifierPc): set<Thread> {
    set t | t in st.notifiers && st.notifiers[t] == pc
  }

  predicate Draining(st: State) {
    st.pc.Drain? && st.ready == [] && (st.satisfied || Exposed(st))
  }

  lemma DrainingAdvance(st: State, t: Thread)
    requires Draining(st) && t in st.notifiers
    ensures Enabled(st, Advance(t)) && Draining(Next(st, Advance(t)))
  {
    var next := Next(st, Advance(t));
    if t in next.notifiers {
      assert next.notifiers[t].Set? || next.notifiers[t].Write?;
      assert next.satisfied || next.notifiers[t].Set?;
    } else if !st.satisfied {
      var u :| u in st.notifiers && (st.notifiers[u].Check? || st.notifiers[u].Set?);
      assert u in next.notifiers;
    }
  }

  /** A notifier that goes on comes nearer its end. */
  lemma AdvanceShrinks(st: State, t: Thread)
    requires Draining(st) && t in st.notifiers
    ensures var next := Next(st, Advance(t));
      || |next.notifiers.Keys| < |st.notifiers.Keys|
      || (|next.notifiers.Keys| == |st.notifiers.Keys| && |At(next, Check)| < |At(st, Check)|)
      || (|next.notifiers.Keys| == |st.notifiers.Keys| && |At(next, Check)| == |At(st, Check)| && |At(next, Set)| < |At(st, Set)|)
  {
    var next := Next(st, Advance(t));
    if t in next.notifiers {
      assert next.notifiers.Keys == st.notifiers.Keys;
      if st.notifiers[t].Check? {
        assert At(next, Check) == At(st, Check) - {t};
      } else {
        assert At(next, Check) == At(st, Check);
        assert At(next, Set) == At(st, Set) - {t};
      }
    } else {
      assert next.notifiers.Keys == st.notifiers.Keys - {t};
    }
  }

  lemma {:induction false} ExposedDrains(st: State) returns (states: seq<State>, events: seq<Event>)
    requires Draining(st)
    ensures Run(states, events) && Returning(states) && states[0] == st && !Armed(states[|states| - 1])
    decreases |st.notifiers.Keys|, |At(st, Check)|, |At(st, Set)|, st.event
  {
    var ev := Scheduler;
    if st.notifiers != map[] {
      var t :| t in st.notifiers;
      ev := Advance(t);
      DrainingAdvance(st, t);
      AdvanceShrinks(st, t);
    } else if st.event == 0 {
      states, events := [st, Next(st, Scheduler)], [Scheduler];
      return;
    }
    states, events := ExposedDrains(Next(st, ev));
    Prepend(st, ev, states, events);
    states, events := [st] + states, [ev] + events;
  }

  /** A wait that has taken the list can return unarmed exactly when the list it took
      was everything and some notifier has yet to set the flag. */
  lemma ReturnsUnarmedIffExposed(st: State)
    requires st.pc.Reset?
    ensures CanReturnUnarmed(st) <==> Exposed(st)
  {
    if Exposed(st) {
      var next := Next(st, Scheduler);
      var t :| t in st.notifiers && (st.notifiers[t].Check? || st.notifiers[t].Set?);
      assert t in next.notifiers;
      var states, events := ExposedDrains(next);
      Prepend(st, Scheduler, states, events);
    } else {
      forall states, events | Run(states, events) && Returning(states) && states[0] == st
        ensures Armed(states[|states| - 1])
      {
        ReturnKeeps(states, events, |states| - 1);
      }
    }
  }

  // ----- when no wakeup is ever lost

  predicate SafeInv(st: State) {
    && Conserved(st)
    && (InWait(st.pc) && !st.pc.Reset? && !st.pc.Drain? ==> WaitInv(st))
    && (st.pc.Drain? ==> DrainInv(st))
    && (st.pc.Out? || st.pc.TryLoad? ==> Armed(st))
  }

  predicate IdleInv(st: State) {
    && (st.pc.TrySwap? ==> st.ready != [])
    && (st.pc.Out? || st.pc.TryLoad? || st.pc.Load? ==> Armed(st))
  }

  lemma OutsideKeeps(st: State, ev: Event)
    requires IdleInv(st) && Enabled(st, ev) && !InWait(st.pc)
    ensures IdleInv(Next(st, ev))
    ensures Next(st, ev).pc.Load? || !InWait(Next(st, ev).pc)
  {
    var st' := Next(st, ev);
    if Coming(st) {
      ComingStays(st, ev);
    }
    if ev.Advance? && st.notifiers[ev.t].Set? {
      assert st'.notifiers[ev.t].Write?;
    }
  }

  lemma SafeStep(st: State, ev: Event)
    requires SafeInv(st) && Enabled(st, ev) && !ev.OtherDescriptor?
    requires ev.Scheduler? && st.pc.Reset? ==> !Exposed(st)
    ensures SafeInv(Next(st, ev))
  {
    StepConserves(st, ev);
    if !InWait(st.pc) {
      OutsideKeeps(st, ev);
    } else if st.pc.Drain? {
      DrainKeeps(st, ev);
    } else if !st.pc.Reset? {
      WaitKeeps(st, ev);
    }
  }

  /** In every run whose waits never clear the flag while exposed, no wakeup is lost. */
  lemma {:induction false} NoWakeupLost(states: seq<State>, events: seq<Event>, i: nat)
    requires Run(states, events) && states[0] == Init() && i < |states|
    requires forall j :: 0 <= j < |events| && events[j].Scheduler? && states[j].pc.Reset? ==> !Exposed(states[j])
    ensures SafeInv(states[i]) && !Lost(states[i])
  {
    if i > 0 {
      NoWakeupLost(states, events, i - 1);
      SafeStep(states[i - 1], events[i - 1]);
    }
  }

  lemma Join(s1: seq<State>, e1: seq<Event>, s2: seq<State>, e2: seq<Event>)
    requires Run(s1, e1) && Run(s2, e2) && s1[|s1| - 1] == s2[0]
    ensures Run(s1 + s2[1..], e1 + e2)
  {
    var s, e := s1 + s2[1..], e1 + e2;
    forall i | 0 <= i < |e|
      ensures Enabled(s[i], e[i]) && s[i + 1] == Next(s[i], e[i])
    {
      if i >= |e1| {
        assert s[i] == s2[i - |e1|] && s[i + 1] == s2[i + 1 - |e1|];
      }
    }
  }

  /** One notifier and a wait that overlaps it. */
  lemma OverlapRun() returns (states: seq<State>, events: seq<Event>, d: State)
    ensures Run(states, events) && states[0] == Init() && states[|states| - 1] == d
    ensures d.pc.Reset? && d.ready == [] && d.notifiers == Next(Init(), Notify(0, 1)).notifiers
  {
    var a := Next(Init(), Notify(0, 1));
    var b := Next(a, CallWait);
    var c := Next(b, Scheduler);
    d := Next(c, Scheduler);
    states, events := [Init(), a, b, c, d], [Notify(0, 1), CallWait, Scheduler, Scheduler];
  }

  /** The condition is needed: one notifier, one wait that overlaps it and a second
      wait leave a process ready and the scheduler asleep for good. */
  lemma WakeupCanBeLost() returns (states: seq<State>, events: seq<Event>)
    ensures Run(states, events) && states[0] == Init() && Lost(states[|states| - 1])
  {
    var s1, e1, d := OverlapRun();
    assert d.notifiers[0].Check?;
    ReturnsUnarmedIffExposed(d);
    var s2, e2 :| Run(s2, e2) && Returning(s2) && s2[0] == d && !Armed(s2[|s2| - 1]);
    Join(s1, e1, s2, e2);
    var out := s2[|s2| - 1];
    var s3, e3 := SecondWait(out);
    states, events := s1 + s2[1..], e1 + e2;
    Join(states, events, s3, e3);
    states, events := states + s3[1..], events + e3;
  }

  lemma SecondWait(out: State) returns (states: seq<State>, events: seq<Event>)
    requires Enabled(out, CallWait) && !Armed(out)
    ensures Run(states, events) && states[0] == out && Lost(states[|states| - 1])
  {
    var load := Next(out, CallWait);
    WaitLosesIffUnarmed(load);
    var s3, e3 :| Run(s3, e3) && InsideWait(s3) && s3[0] == load && Lost(s3[|s3| - 1]);
    Prepend(out, CallWait, s3, e3);
    states, events := [out] + s3, [CallWait] + e3;
  }

  /** A return of epoll_wait for any other descriptor leaves the wait unarmed as well. */
  lemma OtherDescriptorCanLose(st: State)
    requires st.pc.Sleep? && st.ready == [] && !Coming(st)
    ensures CanLose(Next(Next(st, OtherDescriptor), Scheduler))
  {
    WaitLosesIffUnarmed(Next(Next(st, OtherDescriptor), Scheduler));
  }
}
