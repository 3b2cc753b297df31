module CodePermission {
  // One code permission (code_ix.c): at most one holder, and a queue of waiters to
  // whom a release hands the permission over directly.  A waiter may be exiting or
  // collecting garbage by then.  Each section under the permission's lock is a
  // step; rejecting a handed-over permission is two steps, as in the source.

  import opened Options

  type Pid = nat
  type Aux = nat

  datatype Agent = Proc(p: Pid) | AuxJob(a: Aux)

  datatype State = State(
    seized: bool,
    owner: Option<Pid>,
    aux: Option<Aux>,
    queue: seq<Agent>,
    handover: set<Pid>,        // processes with the handover flag
    suspended: set<Pid>,       // processes suspended by this permission
    exiting: set<Pid>,
    gc: set<Pid>,
    scheduled: set<Aux>,       // aux jobs scheduled by a handover
    // history
    rejecting: set<Pid>,       // released in a rejection, flag not yet cleared
    holders: set<Agent>,       // told they have the permission, not yet released
    arrivals: seq<Agent>,      // everyone ever put in the queue
    departures: seq<Agent>)    // everyone taken out of it

  datatype Event =
    | TrySeize(p: Pid)
    | TrySeizeAux(a: Aux)
    | Release(agent: Agent)
    | RejectRelease(p: Pid)
    | RejectClear(p: Pid)
    | Exit(p: Pid)
    | StartGc(p: Pid)
    | EndGc(p: Pid)

  function Init(): State {
    State(false, None, None, [], {}, {}, {}, {}, {}, {}, {}, [], [])
  }

  predicate Enabled(st: State, ev: Event) {
    match ev
    case TrySeize(p) =>
      && p !in st.exiting && p !in st.gc && p !in st.suspended && p !in st.rejecting
      && Proc(p) !in st.holders && Proc(p) !in st.queue
    case TrySeizeAux(a) => AuxJob(a) !in st.holders && AuxJob(a) !in st.queue
    case Release(agent) => agent in st.holders
    case RejectRelease(p) => p in st.handover && p !in st.rejecting && (p in st.exiting || p in st.gc)
    case RejectClear(p) => p in st.rejecting
    case Exit(p) => true
    case StartGc(p) => true
    case EndGc(p) => p in st.gc && p !in st.handover
  }

  function Enqueue(st: State, a: Agent): State {
    st.(queue := st.queue + [a], arrivals := st.arrivals + [a])
  }

  /** The loop of a release: pop until somebody takes the permission. */
  function Handoff(st: State): State
    decreases |st.queue|
  {
    if st.queue == [] then st
    else
      var s := st.(queue := st.queue[1..], departures := st.departures + [st.queue[0]]);
      match st.queue[0]
      case Proc(p) =>
        if p in st.exiting then Handoff(s)
        else if p in st.gc then Handoff(s.(suspended := st.suspended - {p}))
        else s.(seized := true, owner := Some(p), handover := st.handover + {p}, suspended := st.suspended - {p})
      case AuxJob(a) =>
        s.(seized := true, aux := Some(a), scheduled := st.scheduled + {a})
  }

  function Next(st: State, ev: Event): State {
    match ev
    case TrySeize(p) =>
      if p in st.handover then st.(handover := st.handover - {p}, holders := st.holders + {Proc(p)})
      else if !st.seized then st.(seized := true, owner := Some(p), aux := None, holders := st.holders + {Proc(p)})
      else Enqueue(st, Proc(p)).(suspended := st.suspended + {p})
    case TrySeizeAux(a) =>
      if !st.seized then st.(seized := true, owner := None, aux := Some(a), holders := st.holders + {AuxJob(a)})
      else if st.aux == Some(a) then st.(holders := st.holders + {AuxJob(a)}, scheduled := st.scheduled - {a})
      else Enqueue(st, AuxJob(a))
    case Release(agent) =>
      Handoff(st.(seized := false, owner := None, aux := None, holders := st.holders - {agent}))
    case RejectRelease(p) =>
      Handoff(st.(seized := false, owner := None, aux := None, rejecting := st.rejecting + {p}))
    case RejectClear(p) => st.(handover := st.handover - {p}, rejecting := st.rejecting - {p})
    case Exit(p) => st.(exiting := st.exiting + {p})
    case StartGc(p) => st.(gc := st.gc + {p})
    case EndGc(p) => st.(gc := st.gc - {p})
  }

  // ----- the invariant

  predicate IsOwner(st: State, agent: Agent) {
    match agent
    case Proc(p) => st.owner == Some(p)
    case AuxJob(a) => st.aux == Some(a)
  }

  /** At most one agent has the permission or has been handed it, and it is the owner. */
  predicate Exclusive(st: State) {
    && (st.seized <==> st.owner.Some? || st.aux.Some?)
    && !(st.owner.Some? && st.aux.Some?)
    && (forall h :: h in st.holders ==> IsOwner(st, h))
    && (forall p :: p in st.handover && p !in st.rejecting ==> st.owner == Some(p) && Proc(p) !in st.holders)
    && st.rejecting <= st.handover
  }

  /** Whoever owns the permission holds it or has been told of it. */
  predicate OwnerKnows(st: State) {
    && (st.owner.Some? ==>
          Proc(st.owner.value) in st.holders || (st.owner.value in st.handover && st.owner.value !in st.rejecting))
    && (st.aux.Some? ==> AuxJob(st.aux.value) in st.holders || st.aux.value in st.scheduled)
  }

  ghost predicate QueueSound(st: State) {
    && (forall i, j :: 0 <= i < j < |st.queue| ==> st.queue[i] != st.queue[j])
    && (forall a :: a in st.queue ==> !IsOwner(st, a) && a !in st.holders)
    && (forall p :: Proc(p) in st.queue ==> p in st.suspended && p !in st.handover)
    && (forall p :: p in st.suspended && p !in st.exiting ==> Proc(p) in st.queue)
    && st.arrivals == st.departures + st.queue
  }

  /** A waiter waits only while the permission is seized. */
  predicate NoStranded(st: State) {
    st.queue != [] ==> st.seized
  }

  ghost predicate Inv(st: State) {
    Exclusive(st) && OwnerKnows(st) && QueueSound(st) && NoStranded(st)
  }

  predicate Unowned(st: State) {
    !st.seized && st.owner.None? && st.aux.None? && st.holders == {} && st.handover <= st.rejecting
  }

  lemma Popped(st: State, s: State)
    requires QueueSound(st) && Unowned(st) && st.queue != []
    requires s.queue == st.queue[1..] && s.departures == st.departures + [st.queue[0]] && s.arrivals == st.arrivals
    requires s.holders == st.holders && s.exiting == st.exiting && s.handover == st.handover && s.owner == st.owner && s.aux == st.aux
    requires s.suspended == st.suspended ||
             (st.queue[0].Proc? && s.suspended == st.suspended - {st.queue[0].p})
    requires s.suspended == st.suspended ==> st.queue[0].AuxJob? || st.queue[0].p in st.exiting
    ensures QueueSound(s)
  {
    assert st.queue == [st.queue[0]] + s.queue;
    assert st.queue[0] !in s.queue;
  }

  lemma {:induction false} HandoffKeeps(st: State)
    requires Unowned(st) && Exclusive(st) && QueueSound(st)
    ensures Inv(Handoff(st))
    decreases |st.queue|
  {
    if st.queue != [] {
      var s := st.(queue := st.queue[1..], departures := st.departures + [st.queue[0]]);
      match st.queue[0]
      case Proc(p) =>
        if p in st.exiting {
          Popped(st, s);
          HandoffKeeps(s);
        } else {
          var r := s.(suspended := st.suspended - {p});
          assert Proc(p) in st.queue;
          Popped(st, r);
          if p in st.gc {
            HandoffKeeps(r);
          } else {
            assert Proc(p) !in r.queue;
          }
        }
      case AuxJob(a) =>
        Popped(st, s);
        assert AuxJob(a) !in s.queue;
    }
  }

  lemma SeizeKeeps(st: State, ev: Event)
    requires Inv(st) && Enabled(st, ev) && (ev.TrySeize? || ev.TrySeizeAux?)
    ensures Inv(Next(st, ev))
  {
    var st' := Next(st, ev);
    if st'.queue != st.queue {
      var a := if ev.TrySeize? then Proc(ev.p) else AuxJob(ev.a);
      assert st'.queue == st.queue + [a];
      assert !IsOwner(st, a);
    }
  }

  lemma ReleaseKeeps(st: State, ev: Event)
    requires Inv(st) && Enabled(st, ev) && (ev.Release? || ev.RejectRelease?)
    ensures Inv(Next(st, ev))
  {
    var s := st.(seized := false, owner := None, aux := None);
    var r := if ev.Release? then s.(holders := st.holders - {ev.agent})
             else s.(rejecting := st.rejecting + {ev.p});
    assert r.holders == {};
    assert QueueSound(r);
    HandoffKeeps(r);
  }

  lemma StepKeepsInv(st: State, ev: Event)
    requires Inv(st) && Enabled(st, ev)
    ensures Inv(Next(st, ev))
  {
    match ev
    case TrySeize(_) => SeizeKeeps(st, ev);
    case TrySeizeAux(_) => SeizeKeeps(st, ev);
    case Release(_) => ReleaseKeeps(st, ev);
    case RejectRelease(_) => ReleaseKeeps(st, ev);
    case _ =>
  }

  // ----- whole runs

  predicate Run(states: seq<State>, events: seq<Event>) {
    && |states| == |events| + 1
    && states[0] == Init()
    && forall i :: 0 <= i < |events| ==> Enabled(states[i], events[i]) && states[i + 1] == Next(states[i], events[i])
  }

  lemma {:induction false} RunKeepsInv(states: seq<State>, events: seq<Event>, i: nat)
    requires Run(states, events) && i < |states|
    ensures Inv(states[i])
  {
    if i > 0 {
      RunKeepsInv(states, events, i - 1);
      StepKeepsInv(states[i - 1], events[i - 1]);
    }
  }

  /** In every reachable state no two agents hold or have been handed the permission. */
  lemma MutualExclusion(states: seq<State>, events: seq<Event>, i: nat, a: Agent, b: Agent)
    requires Run(states, events) && i < |states|
    requires a in states[i].holders || (a.Proc? && a.p in states[i].handover - states[i].rejecting)
    requires b in states[i].holders || (b.Proc? && b.p in states[i].handover - states[i].rejecting)
    ensures a == b && IsOwner(states[i], a)
  {
    RunKeepsInv(states, events, i);
  }

  /** A newcomer, process or job, is told yes only when nobody waits, unless it was handed
      the permission. */
  lemma NoBarging(states: seq<State>, events: seq<Event>, i: nat, a: Agent)
    requires Run(states, events) && i < |events|
    requires a !in states[i].holders && a in states[i + 1].holders
    ensures states[i].queue == [] || (a.Proc? && a.p in states[i].handover) || (a.AuxJob? && states[i].aux == Some(a.a))
  {
    RunKeepsInv(states, events, i);
    if events[i].Release? || events[i].RejectRelease? {
      var st, ev := states[i], events[i];
      HandoffHolders(st.(seized := false, owner := None, aux := None,
        holders := if ev.Release? then st.holders - {ev.agent} else st.holders,
        rejecting := if ev.Release? then st.rejecting else st.rejecting + {ev.p}));
    }
  }

  lemma {:induction false} HandoffHolders(st: State)
    ensures Handoff(st).holders == st.holders
    decreases |st.queue|
  {
    if st.queue != [] && st.queue[0].Proc? {
      var s := st.(queue := st.queue[1..], departures := st.departures + [st.queue[0]]);
      HandoffHolders(s);
      HandoffHolders(s.(suspended := st.suspended - {st.queue[0].p}));
    }
  }

  /** A live process this permission suspended is waiting for someone who will release. */
  lemma NobodyStranded(states: seq<State>, events: seq<Event>, i: nat, p: Pid)
    requires Run(states, events) && i < |states| && p in states[i].suspended && p !in states[i].exiting
    ensures Proc(p) in states[i].queue && states[i].seized && OwnerKnows(states[i])
  {
    RunKeepsInv(states, events, i);
  }

  // ----- first come, first served

  predicate Eligible(st: State, a: Agent) {
    a.Proc? ==> a.p !in st.exiting && a.p !in st.gc
  }

  function FirstEligible(st: State, q: seq<Agent>): (k: nat)
    ensures k <= |q| && (forall i :: 0 <= i < k ==> !Eligible(st, q[i])) && (k < |q| ==> Eligible(st, q[k]))
  {
    if q == [] || Eligible(st, q[0]) then 0 else 1 + FirstEligible(st, q[1..])
  }

  /** The processes that a release wakes when it takes these waiters out of the queue. */
  function Woken(q: seq<Agent>, exiting: set<Pid>): set<Pid> {
    set a | a in q && a.Proc? && a.p !in exiting :: a.p
  }

  /** r is st after a release that passed over k waiters: it wakes those of them that are
      not exiting, and the one it serves. */
  predicate Served(st: State, r: State, k: nat)
    requires k <= |st.queue|
  {
    var passed := if k == |st.queue| then st.queue else st.queue[..k + 1];
    && r.departures == st.departures + passed
    && r.suspended == st.suspended - Woken(passed, st.exiting)
    && if k == |st.queue| then r.queue == [] && !r.seized
       else IsOwner(r, st.queue[k]) && r.seized && r.queue == st.queue[k + 1..]
  }

  function Skip(st: State): State
    requires st.queue != [] && st.queue[0].Proc?
  {
    var s := st.(queue := st.queue[1..], departures := st.departures + [st.queue[0]]);
    if st.queue[0].p in st.exiting then s else s.(suspended := st.suspended - {st.queue[0].p})
  }

  lemma TakeRest(q: seq<Agent>, j: nat)
    requires j + 2 <= |q|
    ensures [q[0]] + q[1..][..j + 1] == q[..j + 2] && q[1..][j + 1..] == q[j + 2..]
  {
  }

  lemma Append3(d: seq<Agent>, a: seq<Agent>, b: seq<Agent>)
    ensures d + a + b == d + (a + b)
  {
  }

  lemma WokenFirst(q: seq<Agent>, rest: seq<Agent>, exiting: set<Pid>)
    requires q != [] && q == [q[0]] + rest && q[0].Proc?
    ensures Woken(q, exiting) == Woken(rest, exiting) + if q[0].p in exiting then {} else {q[0].p}
  {
    forall p ensures p in Woken(q, exiting) <==> p in Woken(rest, exiting) || (p == q[0].p && p !in exiting) {
      if Proc(p) in q {
        assert Proc(p) == q[0] || Proc(p) in rest;
      }
    }
  }

  lemma ServedAfterSkip(st: State, r: State, j: nat)
    requires st.queue != [] && st.queue[0].Proc? && j < |st.queue| && Served(Skip(st), r, j)
    ensures Served(st, r, j + 1)
  {
    var q, d := st.queue, st.departures;
    if j < |q| - 1 {
      TakeRest(q, j);
      Append3(d, [q[0]], q[1..][..j + 1]);
      WokenFirst(q[..j + 2], q[1..][..j + 1], st.exiting);
    } else {
      assert [q[0]] + q[1..] == q;
      Append3(d, [q[0]], q[1..]);
      WokenFirst(q, q[1..], st.exiting);
    }
  }

  /** A release serves the first eligible waiter and passes over exactly those before it. */
  lemma {:induction false} HandoffServesFirst(st: State)
    requires Unowned(st)
    ensures Served(st, Handoff(st), FirstEligible(st, st.queue))
    decreases |st.queue|
  {
    if st.queue == [] {
      assert Woken([], st.exiting) == {};
    } else if Eligible(st, st.queue[0]) {
      var q := st.queue[..1];
      assert q == [st.queue[0]];
      assert Woken(q, st.exiting) == if st.queue[0].Proc? then {st.queue[0].p} else {};
    } else {
      HandoffServesFirst(Skip(st));
      EligibleSame(st, Skip(st), st.queue[1..]);
      ServedAfterSkip(st, Handoff(st), FirstEligible(st, st.queue[1..]));
    }
  }

  lemma {:induction false} EligibleSame(st: State, r: State, q: seq<Agent>)
    requires st.exiting == r.exiting && st.gc == r.gc
    ensures FirstEligible(st, q) == FirstEligible(r, q)
  {
    if q != [] {
      EligibleSame(st, r, q[1..]);
    }
  }

  predicate Releases(ev: Event) {
    ev.Release? || ev.RejectRelease?
  }

  function CountReleases(events: seq<Event>): nat {
    if events == [] then 0
    else CountReleases(events[..|events| - 1]) + if Releases(events[|events| - 1]) then 1 else 0
  }

  lemma DeparturesGrow(st: State, ev: Event)
    requires Inv(st) && Enabled(st, ev)
    ensures st.arrivals <= Next(st, ev).arrivals && |st.departures| <= |Next(st, ev).departures|
    ensures Releases(ev) && st.queue != [] ==> |st.departures| < |Next(st, ev).departures|
  {
    if Releases(ev) {
      var s := st.(seized := false, owner := None, aux := None);
      var r := if ev.Release? then s.(holders := st.holders - {ev.agent})
               else s.(rejecting := st.rejecting + {ev.p});
      assert r.holders == {};
      HandoffServesFirst(r);
      HandoffArrivals(r);
    }
  }

  lemma {:induction false} HandoffArrivals(st: State)
    ensures Handoff(st).arrivals == st.arrivals
    decreases |st.queue|
  {
    if st.queue != [] && st.queue[0].Proc? {
      var s := st.(queue := st.queue[1..], departures := st.departures + [st.queue[0]]);
      HandoffArrivals(s);
      HandoffArrivals(s.(suspended := st.suspended - {st.queue[0].p}));
    }
  }

  lemma {:induction false} ReleasesServe(states: seq<State>, events: seq<Event>, i: nat, j: nat, m: nat)
    requires Run(states, events) && i <= j < |states| && m < |states[i].arrivals|
    ensures states[i].arrivals <= states[j].arrivals
    ensures |states[i].departures| <= |states[j].departures|
    ensures |states[j].departures| > m || |states[j].departures| >= |states[i].departures| + CountReleases(events[i..j])
  {
    if i < j {
      ReleasesServe(states, events, i, j - 1, m);
      RunKeepsInv(states, events, j - 1);
      DeparturesGrow(states[j - 1], events[j - 1]);
      assert events[i..j][..j - i - 1] == events[i..j - 1];
      assert events[i..j][j - i - 1] == events[j - 1];
    }
  }

  /** Bounded waiting: the waiter at position k has left the queue after k + 1 releases,
      and waiters leave in the order in which they came. */
  lemma BoundedWaiting(states: seq<State>, events: seq<Event>, i: nat, j: nat, k: nat)
    requires Run(states, events) && i <= j < |states| && k < |states[i].queue|
    requires CountReleases(events[i..j]) > k
    ensures |states[j].departures| > |states[i].departures| + k
    ensures states[j].departures[|states[i].departures| + k] == states[i].queue[k]
  {
    RunKeepsInv(states, events, i);
    RunKeepsInv(states, events, j);
    var m := |states[i].departures| + k;
    assert states[i].arrivals[m] == states[i].queue[k];
    ReleasesServe(states, events, i, j, m);
    assert states[j].arrivals[m] == states[i].arrivals[m];
  }

  /** One turn of the loop of a release. */
  function Turn(st: State): State
    requires st.queue != []
  {
    var s := st.(queue := st.queue[1..], departures := st.departures + [st.queue[0]]);
    match st.queue[0]
    case Proc(p) =>
      if p in st.exiting then s
      else if p in st.gc then s.(suspended := st.suspended - {p})
      else s.(seized := true, owner := Some(p), handover := st.handover + {p}, suspended := st.suspended - {p})
    case AuxJob(a) => s.(seized := true, aux := Some(a), scheduled := st.scheduled + {a})
  }

  lemma HandoffIsTurns(st: State)
    requires st.queue != [] && !st.seized
    ensures Handoff(st) == if Turn(st).seized then Turn(st) else Handoff(Turn(st))
  {
  }

  // ----- the record and its operations

  class QueueItem {
    const agent: Agent
    var next: QueueItem?

    constructor (agent: Agent)
      ensures this.agent == agent && next == null
    {
      this.agent := agent;
      next := null;
    }
  }

  /** The linked wait queue and its tail pointer. */
  class WaitQueue {
    var first: QueueItem?
    var last: QueueItem?       // null when the tail pointer is at `first`
    ghost var items: seq<QueueItem>
    ghost var contents: seq<Agent>

    ghost predicate Valid()
      reads this, items
    {
      && (forall i, j :: 0 <= i < j < |items| ==> items[i] != items[j])
      && (forall i {:trigger items[i].next} :: 0 <= i < |items| ==>
            items[i].next == if i + 1 < |items| then items[i + 1] else null)
      && first == (if items == [] then null else items[0])
      && last == (if items == [] then null else items[|items| - 1])
      && |contents| == |items|
      && (forall i :: 0 <= i < |items| ==> items[i].agent == contents[i])
    }

    constructor ()
      ensures Valid() && contents == [] && items == []
    {
      first, last, items, contents := null, null, [], [];
    }

    method LinkLast(agent: Agent)
      requires Valid()
      modifies this, items
      ensures Valid() && contents == old(contents) + [agent]
      ensures forall i :: 0 <= i < |items| ==> items[i] in old(items) || fresh(items[i])
    {
      var item := new QueueItem(agent);
      if last == null {
        first := item;
      } else {
        last.next := item;
      }
      last := item;
      items := items + [item];
      contents := contents + [agent];
    }

    method UnlinkFirst() returns (agent: Agent)
      requires Valid() && first != null
      modifies this
      ensures Valid() && agent == old(contents)[0] && contents == old(contents)[1..]
      ensures forall i :: 0 <= i < |items| ==> items[i] in old(items)
    {
      agent := first.agent;
      assert items[0].next == if 1 < |items| then items[1] else null;
      first := first.next;
      if first == null {
        last := null;
      }
      items := items[1..];
      contents := contents[1..];
    }
  }

  class Permission {
    var seized: bool
    var owner: Option<Pid>
    var aux: Option<Aux>
    const waiters: WaitQueue
    var handover: set<Pid>
    var suspended: set<Pid>
    var exiting: set<Pid>
    var gc: set<Pid>
    var scheduled: set<Aux>
    ghost var st: State

    ghost predicate Mirrors(s: State)
      reads this, waiters, waiters.items
    {
      waiters.Valid() && waiters.contents == s.queue && FieldsOf(s)
    }

    ghost predicate FieldsOf(s: State)
      reads this
    {
      && seized == s.seized && owner == s.owner && aux == s.aux
      && handover == s.handover && suspended == s.suspended && exiting == s.exiting
      && gc == s.gc && scheduled == s.scheduled
    }

    ghost predicate Valid()
      reads this, waiters, waiters.items
    {
      Inv(st) && Mirrors(st)
    }

    constructor ()
      ensures Valid() && st == Init()
    {
      seized, owner, aux := false, None, None;
      waiters := new WaitQueue();
      handover, suspended, exiting, gc, scheduled := {}, {}, {}, {}, {};
      st := Init();
    }

    method TrySeizeProcess(p: Pid) returns (success: bool)
      requires Valid() && Enabled(st, TrySeize(p))
      modifies this, waiters, waiters.items
      ensures Valid() && st == Next(old(st), TrySeize(p))
      ensures success <==> Proc(p) in st.holders
    {
      StepKeepsInv(st, TrySeize(p));
      if p in handover {
        handover := handover - {p};
        success := true;
      } else if !seized {
        seized, owner, aux := true, Some(p), None;
        success := true;
      } else {
        suspended := suspended + {p};
        waiters.LinkLast(Proc(p));
        success := false;
      }
      st := Next(st, TrySeize(p));
    }

    method TrySeizeAuxJob(a: Aux) returns (success: bool)
      requires Valid() && Enabled(st, TrySeizeAux(a))
      modifies this, waiters, waiters.items
      ensures Valid() && st == Next(old(st), TrySeizeAux(a))
      ensures success <==> AuxJob(a) in st.holders
    {
      StepKeepsInv(st, TrySeizeAux(a));
      success := true;
      if !seized {
        seized, owner, aux := true, None, Some(a);
      } else if aux == Some(a) {
        scheduled := scheduled - {a};
      } else {
        waiters.LinkLast(AuxJob(a));
        success := false;
      }
      st := Next(st, TrySeizeAux(a));
    }

    /** Takes the permission back and hands it to the first eligible waiter. */
    method ReleasePermission(ghost ev: Event)
      requires Valid() && Enabled(st, ev) && Releases(ev)
      modifies this, waiters
      ensures Valid() && st == Next(old(st), ev)
    {
      StepKeepsInv(st, ev);
      ghost var target := Next(st, ev);
      seized, owner, aux := false, None, None;
      ghost var s := st.(seized := false, owner := None, aux := None);
      st := if ev.Release? then s.(holders := st.holders - {ev.agent}) else s.(rejecting := st.rejecting + {ev.p});
      while waiters.first != null && !seized
        invariant Mirrors(st)
        invariant forall i :: 0 <= i < |waiters.items| ==> waiters.items[i] in old(waiters.items)
        invariant (if seized then st else Handoff(st)) == target
        decreases |waiters.contents|, !seized
      {
        HandoffIsTurns(st);
        ServeFirst();
      }
    }

    method ServeFirst()
      requires Mirrors(st) && waiters.first != null && st.queue != []
      modifies this, waiters
      ensures st == Turn(old(st)) && Mirrors(st)
      ensures |waiters.contents| == |old(waiters.contents)| - 1
      ensures forall i :: 0 <= i < |waiters.items| ==> waiters.items[i] in old(waiters.items)
    {
      var agent := waiters.UnlinkFirst();
      Serve(agent);
    }

    method Serve(agent: Agent)
      requires FieldsOf(st) && st.queue != [] && agent == st.queue[0]
      modifies this
      ensures st == Turn(old(st)) && FieldsOf(st)
    {
      match agent {
        case Proc(p) =>
          if p in exiting {
          } else if p in gc {
            suspended := suspended - {p};
          } else {
            seized, owner := true, Some(p);
            handover, suspended := handover + {p}, suspended - {p};
          }
        case AuxJob(a) =>
          seized, aux := true, Some(a);
          scheduled := scheduled + {a};
      }
      st := Turn(st);
    }
  }
}
