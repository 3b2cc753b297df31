module LiteralAreas {
  // Release of literal areas (beam_bif_load.c).
  //
  // Areas wait in a queue, one at a time is published to the processes, and a
  // published area is freed only after the block counters of the index in use
  // while it was published have drained.  Every scheduler reads the block index
  // without a barrier, so it may use the old index until thread progress; this
  // is `view`.  Atomic operations and mutex sections are single steps, and the
  // collector's scan of the counters is cut at every access to a counter.

  import opened Options

  type Area = nat

  datatype BlockState = NoBlock | SwitchedIx | Waiting

  /** Where the literal area collector is. */
  datatype Pc =
    | Idle                          // the last call returned false
    | Collecting                    // the last call returned true
    | AwaitProgress(again: bool)    // suspended until thread progress
    | Entry                         // at the top of the loop
    | Check(six: nat)               // about to read counter six
    | Drop(six: nat)                // about to take back its own increment
    | Restore(six: nat)             // about to restore its own increment
    | Stall(six: nat)               // counter six did not reach zero
    | Trapped                       // waiting for a message

  datatype Token = Token(id: nat, sched: nat, ix: nat)

  datatype State = State(
    queue: seq<Area>,
    published: Option<Area>,
    counter: seq<seq<int>>,         // counter[block index][scheduler]
    blockIx: nat,
    waitSched: nat,
    blockState: BlockState,
    blockArea: Option<Area>,
    view: seq<nat>,                 // the block index each scheduler sees
    pc: Pc,
    mailbox: nat,                   // wakeups sent to the collector
    // history
    tokens: set<Token>,             // blocks taken and not yet returned
    nextId: nat,
    cut: nat,                       // nextId at the last index switch
    enqueued: seq<Area>,
    released: seq<Area>)
  {
    function Schedulers(): nat { |view| }
    function OldIx(): int { 1 - blockIx }
  }

  datatype Event =
    | Enqueue(area: Area)
    | See(sched: nat)
    | Block(sched: nat)
    | Unblock(token: Token)
    | Progress
    | Wake
    | Replied                       // all processes answered; switch again
    | Collect                       // one atomic step of the collector

  function Zeroes(n: nat, v: int): (s: seq<int>)
    ensures |s| == n && forall i :: 0 <= i < n ==> s[i] == v
  {
    seq(n, _ => v)
  }

  function Init(n: nat): (st: State)
    ensures Inv(st)
  {
    var st := State([], None, [Zeroes(n, 1), Zeroes(n, 1)], 0, 0, NoBlock, None,
                    seq(n, _ => 0), Idle, 0, {}, 0, 0, [], []);
    assert st.counter[0] == Zeroes(n, 1) && st.counter[1] == Zeroes(n, 1);
    st
  }

  // ----- the steps

  predicate Shape(st: State) {
    && |st.counter| == 2 && |st.counter[0]| == |st.counter[1]| == st.Schedulers()
    && st.blockIx < 2
    && (forall s :: 0 <= s < |st.view| ==> st.view[s] < 2)
    && (forall t :: t in st.tokens ==> t.id < st.nextId && t.sched < st.Schedulers() && t.ix < 2)
    && st.cut <= st.nextId
  }

  function Bump(st: State, ix: int, s: int, d: int): (c: seq<seq<int>>)
    requires Shape(st) && 0 <= ix < 2 && 0 <= s < st.Schedulers()
    ensures |c| == 2 && |c[0]| == |c[1]| == st.Schedulers()
    ensures c[ix][s] == st.counter[ix][s] + d
    ensures forall i, r :: 0 <= i < 2 && 0 <= r < st.Schedulers() && (i != ix || r != s) ==> c[i][r] == st.counter[i][r]
  {
    st.counter[ix := st.counter[ix][s := st.counter[ix][s] + d]]
  }

  /** The published area is replaced by the head of the queue. */
  function SwitchArea(st: State): State {
    if st.queue == [] then st.(published := None)
    else st.(published := Some(st.queue[0]), queue := st.queue[1..])
  }

  /** The collector is inside the call, with every index it is about to use in range. */
  predicate CollectorReady(st: State) {
    match st.pc
    case Entry => st.blockState.Waiting? ==> st.waitSched < st.Schedulers()
    case Check(six) => six <= st.Schedulers() && (six == st.Schedulers() ==> st.blockArea.Some?)
    case Drop(six) => six < st.Schedulers()
    case Restore(six) => six < st.Schedulers()
    case Stall(six) => six < st.Schedulers()
    case _ => false
  }

  predicate Enabled(st: State, ev: Event) {
    && Shape(st)
    && match ev
    case Enqueue(_) => true
    case See(s) => s < st.Schedulers()
    case Block(s) => s < st.Schedulers()
    case Unblock(t) => t in st.tokens
    case Progress => st.pc.AwaitProgress? && forall s :: 0 <= s < |st.view| ==> st.view[s] == st.blockIx
    case Wake => (st.pc.Idle? || st.pc.Trapped?) && st.mailbox > 0
    case Replied => st.pc.Collecting?
    case Collect => CollectorReady(st)
  }

  function Next(st: State, ev: Event): State
    requires Enabled(st, ev)
  {
    match ev
    case Enqueue(a) =>
      st.(queue := st.queue + [a], enqueued := st.enqueued + [a], mailbox := st.mailbox + 1)
    case See(s) => st.(view := st.view[s := st.blockIx])
    case Block(s) =>
      st.(counter := Bump(st, st.view[s], s, 1),
          tokens := st.tokens + {Token(st.nextId, s, st.view[s])},
          nextId := st.nextId + 1)
    case Unblock(t) =>
      var c := Bump(st, t.ix, t.sched, -1);
      st.(counter := c, tokens := st.tokens - {t},
          mailbox := if c[t.ix][t.sched] == 0 then st.mailbox + 1 else st.mailbox)
    case Progress => st.(pc := if st.pc.again then Entry else Collecting)
    case Wake => st.(pc := Entry, mailbox := st.mailbox - 1)
    case Replied => st.(pc := Entry)
    case Collect => CollectorStep(st)
  }

  function CollectorStep(st: State): State
    requires Shape(st) && CollectorReady(st)
  {
    match st.pc
    case Entry => EntryStep(st)
    case Check(six) =>
      if six == st.Schedulers() then
        st.(blockState := NoBlock, blockArea := None, released := st.released + [st.blockArea.value], pc := Entry)
      else if st.counter[st.OldIx()][six] == 1 then st.(pc := Check(six + 1))
      else st.(pc := Drop(six))
    case Drop(six) =>
      var c := Bump(st, st.OldIx(), six, -1);
      st.(counter := c, pc := if c[st.OldIx()][six] == 0 then Restore(six) else Stall(six))
    case Restore(six) =>
      st.(counter := Bump(st, st.OldIx(), six, 1), pc := Check(six + 1))
    case Stall(six) =>
      var w := st.(waitSched := six, blockState := Waiting);
      if st.published.Some? then w.(pc := Trapped)
      else
        var p := SwitchArea(w);
        p.(pc := if p.published.Some? then AwaitProgress(false) else Trapped)
  }

  function EntryStep(st: State): State
    requires Shape(st) && st.pc.Entry? && CollectorReady(st)
  {
    match st.blockState
    case NoBlock =>
      var p := SwitchArea(st);
      var q := if st.published.None? then p
               else p.(blockIx := st.OldIx(), blockState := SwitchedIx,
                       blockArea := st.published, cut := st.nextId);
      if st.published.None? && p.published.None? then q.(pc := Idle)
      else q.(pc := AwaitProgress(p.published.None?))
    case SwitchedIx => st.(pc := Check(0))
    case Waiting =>
      st.(counter := Bump(st, st.OldIx(), st.waitSched, 1), pc := Check(st.waitSched))
  }

  // ----- the invariant

  /** The blocks outstanding on one counter. */
  function Held(st: State, ix: int, s: int): set<Token> {
    set t | t in st.tokens && t.ix == ix && t.sched == s
  }

  /** The collector has taken its own increment out of old-index counter s. */
  predicate Lent(st: State, s: int) {
    || ((st.pc.Restore? || st.pc.Stall?) && st.pc.six == s)
    || (st.blockState.Waiting? && st.waitSched == s &&
        (st.pc.AwaitProgress? || st.pc.Collecting? || st.pc.Trapped? || st.pc.Entry?))
  }

  function Own(st: State, ix: int, s: int): int {
    if ix == st.OldIx() && Lent(st, s) then 0 else 1
  }

  predicate Counted(st: State, ix: int, s: int)
    requires Shape(st) && 0 <= ix < 2 && 0 <= s < st.Schedulers()
  {
    st.counter[ix][s] == Own(st, ix, s) + |Held(st, ix, s)|
  }

  /** Every counter is the collector's own increment plus its outstanding blocks. */
  predicate CountersExact(st: State)
    requires Shape(st)
  {
    forall ix, s :: 0 <= ix < 2 && 0 <= s < st.Schedulers() ==> Counted(st, ix, s)
  }

  predicate Drained(st: State, k: int) {
    forall t :: t in st.tokens && t.ix == st.OldIx() ==> t.sched >= k
  }

  predicate Control(st: State)
    requires Shape(st)
  {
    && (st.blockState.NoBlock? <==> st.blockArea.None?)
    && (st.blockState.NoBlock? ==>
          && (st.pc.Idle? || st.pc.Collecting? || st.pc.Entry? || (st.pc.AwaitProgress? && !st.pc.again))
          && Drained(st, st.Schedulers()))
    && (st.blockState.SwitchedIx? || st.blockState.Waiting? ==> !st.pc.Idle?)
    && (st.blockState.SwitchedIx? ==> !st.pc.Trapped?)
    && (st.blockState.Waiting? ==> st.waitSched < st.Schedulers() && Drained(st, st.waitSched))
    && (st.pc.Idle? ==> st.published.None?)
    && (st.pc.AwaitProgress? && st.pc.again ==> st.blockState.SwitchedIx? && st.published.None?)
    && (st.pc.Check? ==> st.pc.six <= st.Schedulers() && Drained(st, st.pc.six))
    && (st.pc.Drop? || st.pc.Restore? || st.pc.Stall? ==> st.pc.six < st.Schedulers() && Drained(st, st.pc.six))
    && (st.pc.Restore? ==> st.counter[st.OldIx()][st.pc.six] == 0)
  }

  /** A stale view is possible only between an index switch and thread progress. */
  predicate ViewsFresh(st: State) {
    !(st.blockState.SwitchedIx? && st.pc.AwaitProgress?) ==>
      forall s :: 0 <= s < |st.view| ==> st.view[s] == st.blockIx
  }

  predicate CutKept(st: State) {
    !st.blockState.NoBlock? ==> forall t :: t in st.tokens && t.id < st.cut ==> t.ix == st.OldIx()
  }

  function Opt(o: Option<Area>): seq<Area> {
    if o.None? then [] else [o.value]
  }

  predicate Fifo(st: State) {
    st.released + Opt(st.blockArea) + Opt(st.published) + st.queue == st.enqueued
  }

  /** A blocked collector that could go on has a wakeup on its way. */
  predicate NoLostWakeup(st: State)
    requires Shape(st)
  {
    && (st.pc.Idle? && st.queue != [] ==> st.mailbox > 0)
    && (st.pc.Trapped? && st.published.None? && st.queue != [] ==> st.mailbox > 0)
    && (st.pc.Trapped? && st.waitSched < st.Schedulers() && st.counter[st.OldIx()][st.waitSched] == 0 ==> st.mailbox > 0)
    && (st.pc.Stall? && st.pc.six < st.Schedulers() && st.counter[st.OldIx()][st.pc.six] == 0 ==> st.mailbox > 0)
  }

  predicate Inv(st: State) {
    Shape(st) && CountersExact(st) && Control(st) && ViewsFresh(st) && CutKept(st) && Fifo(st) && NoLostWakeup(st)
  }

  // ----- every step keeps the invariant

  lemma EmptyHeld(st: State, s: int)
    requires Shape(st) && 0 <= s < st.Schedulers() && Counted(st, st.OldIx(), s)
    requires st.counter[st.OldIx()][s] == Own(st, st.OldIx(), s)
    ensures forall t :: t in st.tokens && t.ix == st.OldIx() ==> t.sched != s
  {
    var h := Held(st, st.OldIx(), s);
    assert |h| == 0;
    forall t | t in st.tokens && t.ix == st.OldIx()
      ensures t.sched != s
    {
      assert t.sched == s ==> t in h;
    }
  }

  lemma EmptyMeansZero(st: State, ix: int, s: int)
    requires forall t :: t in st.tokens && t.ix == ix ==> t.sched != s
    ensures |Held(st, ix, s)| == 0
  {
    assert Held(st, ix, s) == {};
  }

  lemma SameTokensSameHeld(st: State, st': State)
    requires st'.tokens == st.tokens
    ensures forall ix, s :: Held(st', ix, s) == Held(st, ix, s)
  {
  }

  lemma BlockCounters(st: State, s: nat)
    requires Inv(st) && s < st.Schedulers()
    ensures Shape(Next(st, Block(s))) && CountersExact(Next(st, Block(s)))
  {
    var st' := Next(st, Block(s));
    var t := Token(st.nextId, s, st.view[s]);
    assert t !in st.tokens;
    forall ix, r | 0 <= ix < 2 && 0 <= r < st.Schedulers()
      ensures Counted(st', ix, r)
    {
      assert Counted(st, ix, r);
      if ix == t.ix && r == s {
        assert Held(st', ix, r) == Held(st, ix, r) + {t};
      } else {
        assert Held(st', ix, r) == Held(st, ix, r);
      }
    }
  }

  lemma BlockKeeps(st: State, s: nat)
    requires Inv(st) && s < st.Schedulers()
    ensures Inv(Next(st, Block(s)))
  {
    BlockCounters(st, s);
  }

  lemma UnblockKeeps(st: State, t: Token)
    requires Inv(st) && t in st.tokens
    ensures Inv(Next(st, Unblock(t)))
  {
    var st' := Next(st, Unblock(t));
    forall ix, r | 0 <= ix < 2 && 0 <= r < st.Schedulers()
      ensures Counted(st', ix, r)
    {
      assert Counted(st, ix, r);
      if ix == t.ix && r == t.sched {
        assert t in Held(st, ix, r);
        assert Held(st', ix, r) == Held(st, ix, r) - {t};
      } else {
        assert Held(st', ix, r) == Held(st, ix, r);
      }
    }
    assert Counted(st, t.ix, t.sched);
    assert t in Held(st, t.ix, t.sched);
  }

  lemma CountersMove(st: State, st': State)
    requires Shape(st) && Shape(st') && CountersExact(st)
    requires st'.tokens == st.tokens && st'.Schedulers() == st.Schedulers()
    requires forall ix, s :: 0 <= ix < 2 && 0 <= s < st.Schedulers() ==>
               st'.counter[ix][s] - Own(st', ix, s) == st.counter[ix][s] - Own(st, ix, s)
    ensures CountersExact(st')
  {
    SameTokensSameHeld(st, st');
    forall ix, s | 0 <= ix < 2 && 0 <= s < st.Schedulers()
      ensures Counted(st', ix, s)
    {
      assert Counted(st, ix, s);
    }
  }

  lemma QueueHead(st: State)
    ensures Opt(SwitchArea(st).published) + SwitchArea(st).queue == st.queue
  {
  }

  lemma SwitchFifo(st: State)
    requires Shape(st) && Fifo(st) && st.pc.Entry? && st.blockState.NoBlock? && st.blockArea.None?
    ensures Fifo(EntryStep(st))
  {
    QueueHead(st);
    var st' := EntryStep(st);
    assert Opt(st'.published) + st'.queue == st.queue && Opt(st'.blockArea) == Opt(st.published);
    assert st'.released + Opt(st'.blockArea) + Opt(st'.published) + st'.queue
        == st.released + Opt(st.published) + (Opt(st'.published) + st'.queue);
    assert st.released + Opt(st.blockArea) + Opt(st.published) + st.queue
        == st.released + Opt(st.published) + st.queue;
  }

  lemma SwitchCounters(st: State)
    requires Inv(st) && st.pc.Entry? && st.blockState.NoBlock?
    ensures Shape(EntryStep(st)) && CountersExact(EntryStep(st))
  {
    CountersMove(st, EntryStep(st));
  }

  lemma SwitchControl(st: State)
    requires Inv(st) && st.pc.Entry? && st.blockState.NoBlock?
    ensures var st' := EntryStep(st); Shape(st') && Control(st') && ViewsFresh(st') && CutKept(st') && NoLostWakeup(st')
  {
  }

  lemma SwitchKeeps(st: State)
    requires Inv(st) && st.pc.Entry? && st.blockState.NoBlock?
    ensures Inv(EntryStep(st))
  {
    SwitchFifo(st);
    SwitchCounters(st);
    SwitchControl(st);
  }

  lemma EntryKeeps(st: State)
    requires Inv(st) && st.pc.Entry?
    ensures Inv(EntryStep(st))
  {
    if st.blockState.NoBlock? {
      SwitchKeeps(st);
    } else {
      CountersMove(st, EntryStep(st));
    }
  }

  lemma ScanKeeps(st: State)
    requires Inv(st) && (st.pc.Check? || st.pc.Drop? || st.pc.Restore?)
    ensures Inv(CollectorStep(st))
  {
    var st' := CollectorStep(st);
    CountersMove(st, st');
    var six := st.pc.six;
    if six < st.Schedulers() {
      assert Counted(st, st.OldIx(), six);
      if st.counter[st.OldIx()][six] == Own(st, st.OldIx(), six) {
        EmptyHeld(st, six);
      }
    }
    assert Fifo(st');
  }

  lemma StallKeeps(st: State)
    requires Inv(st) && st.pc.Stall?
    ensures Inv(CollectorStep(st))
  {
    var st' := CollectorStep(st);
    CountersMove(st, st');
    if st.queue != [] {
      assert [st.queue[0]] + st.queue[1..] == st.queue;
    }
    assert Fifo(st');
  }

  lemma QuietKeeps(st: State, ev: Event)
    requires Inv(st) && Enabled(st, ev) && (ev.Enqueue? || ev.See? || ev.Progress? || ev.Wake? || ev.Replied?)
    ensures Inv(Next(st, ev))
  {
    var st' := Next(st, ev);
    CountersMove(st, st');
    assert Fifo(st');
  }

  lemma StepKeepsInv(st: State, ev: Event)
    requires Inv(st) && Enabled(st, ev)
    ensures Inv(Next(st, ev))
  {
    match ev
    case Block(s) => BlockKeeps(st, s);
    case Unblock(t) => UnblockKeeps(st, t);
    case Collect =>
      if st.pc.Entry? {
        EntryKeeps(st);
      } else if st.pc.Stall? {
        StallKeeps(st);
      } else {
        ScanKeeps(st);
      }
    case _ => QuietKeeps(st, ev);
  }

  // ----- whole runs

  predicate Run(n: nat, states: seq<State>, events: seq<Event>) {
    && |states| == |events| + 1
    && states[0] == Init(n)
    && forall i :: 0 <= i < |events| ==> Enabled(states[i], events[i]) && states[i + 1] == Next(states[i], events[i])
  }

  lemma {:induction false} RunKeepsInv(n: nat, states: seq<State>, events: seq<Event>, i: nat)
    requires Run(n, states, events) && i < |states|
    ensures Inv(states[i])
  {
    if i > 0 {
      RunKeepsInv(n, states, events, i - 1);
      StepKeepsInv(states[i - 1], events[i - 1]);
    }
  }

  /** The step that takes an area out of publication, and the one that frees it. */
  predicate Switches(st: State, ev: Event) {
    ev.Collect? && st.pc.Entry? && st.blockState.NoBlock? && st.published.Some?
  }

  predicate Frees(st: State, ev: Event) {
    ev.Collect? && st.pc.Check? && st.pc.six == st.Schedulers()
  }

  /** Between a switch and the free of its area there is no other switch or free. */
  predicate Pending(states: seq<State>, events: seq<Event>, j: nat, i: nat)
    requires |states| == |events| + 1 && j < i < |events|
  {
    Switches(states[j], events[j]) && forall k :: j < k < i ==> !Frees(states[k], events[k])
  }

  lemma SwitchSets(st: State, ev: Event)
    requires Inv(st) && Enabled(st, ev) && Switches(st, ev)
    ensures var st' := Next(st, ev); !st'.blockState.NoBlock? && st'.cut == st.nextId && st'.blockArea == st.published
  {
  }

  lemma SwitchStays(st: State, ev: Event)
    requires Inv(st) && Enabled(st, ev) && !st.blockState.NoBlock? && !Frees(st, ev)
    ensures var st' := Next(st, ev); !st'.blockState.NoBlock? && st'.cut == st.cut && st'.blockArea == st.blockArea
  {
  }

  lemma {:induction false} SwitchHolds(n: nat, states: seq<State>, events: seq<Event>, j: nat, i: nat)
    requires Run(n, states, events) && j < i < |events| && Pending(states, events, j, i)
    ensures !states[i].blockState.NoBlock? && states[i].cut == states[j].nextId
    ensures states[i].blockArea == states[j].published
  {
    RunKeepsInv(n, states, events, i - 1);
    if i > j + 1 {
      SwitchHolds(n, states, events, j, i - 1);
      SwitchStays(states[i - 1], events[i - 1]);
    } else {
      SwitchSets(states[j], events[j]);
    }
  }

  /** At a free no block taken before the last index switch is outstanding. */
  lemma FreeIsDrained(st: State, ev: Event)
    requires Inv(st) && Enabled(st, ev) && Frees(st, ev)
    ensures forall t :: t in st.tokens ==> t.id >= st.cut && t.ix == st.blockIx
    ensures forall s :: 0 <= s < st.Schedulers() ==> st.counter[st.OldIx()][s] == 1
  {
    forall s | 0 <= s < st.Schedulers()
      ensures st.counter[st.OldIx()][s] == 1
    {
      assert Counted(st, st.OldIx(), s);
      EmptyMeansZero(st, st.OldIx(), s);
    }
  }

  /** In every run, the area freed is the one switched out, and no block that was
      outstanding when it was switched out is still outstanding when it is freed. */
  lemma FreedOnlyWhenUnblocked(n: nat, states: seq<State>, events: seq<Event>, j: nat, i: nat)
    requires Run(n, states, events) && j < i < |events|
    requires Pending(states, events, j, i) && Frees(states[i], events[i])
    ensures states[j].published.Some?
    ensures states[i + 1].released == states[i].released + [states[j].published.value]
    ensures states[j].tokens !! states[i].tokens
  {
    RunKeepsInv(n, states, events, j);
    RunKeepsInv(n, states, events, i);
    SwitchHolds(n, states, events, j, i);
    FreeIsDrained(states[i], events[i]);
  }

  /** A block of the collector starts with a switch and ends with the free. */
  lemma BlockStarts(st: State, ev: Event)
    requires Inv(st) && Enabled(st, ev) && !Next(st, ev).blockState.NoBlock?
    ensures if st.blockState.NoBlock? then Switches(st, ev) else !Frees(st, ev)
  {
  }

  /** Every free is preceded by the switch of its area. */
  lemma {:induction false} FreeHasSwitch(n: nat, states: seq<State>, events: seq<Event>, i: nat) returns (j: nat)
    requires Run(n, states, events) && i < |events| && !states[i].blockState.NoBlock?
    ensures j < i && Pending(states, events, j, i)
  {
    assert i > 0;
    RunKeepsInv(n, states, events, i - 1);
    BlockStarts(states[i - 1], events[i - 1]);
    if states[i - 1].blockState.NoBlock? {
      j := i - 1;
    } else {
      j := FreeHasSwitch(n, states, events, i - 1);
    }
  }

  /** In every reachable state the areas freed, blocked, published and queued are the
      areas enqueued, in order, and each counter is exact. */
  lemma AreasInOrder(n: nat, states: seq<State>, events: seq<Event>, i: nat)
    requires Run(n, states, events) && i < |states|
    ensures Fifo(states[i]) && states[i].released <= states[i].enqueued
    ensures Shape(states[i]) && CountersExact(states[i]) && NoLostWakeup(states[i])
  {
    RunKeepsInv(n, states, events, i);
  }

  // ----- a call ends, whatever the schedulers do meanwhile

  /** Bounds the collector's remaining steps in the current call. */
  function Rank(st: State): int {
    var n := st.Schedulers();
    match st.pc
    case Entry => if st.blockState.NoBlock? then 1 else 4 * n + 5
    case Check(six) => 4 * (n - six) + 4
    case Drop(six) => 4 * (n - six) + 3
    case Restore(six) => 4 * (n - six) + 2
    case Stall(_) => 1
    case _ => 0
  }

  /** Every step of the collector lowers the rank, no step of a scheduler changes it,
      and rank 0 is exactly having left the call. */
  lemma CallEnds(st: State, ev: Event)
    requires Inv(st) && Enabled(st, ev)
    ensures 0 <= Rank(st) <= 4 * st.Schedulers() + 5
    ensures Rank(st) == 0 <==> !CollectorReady(st)
    ensures ev.Collect? ==> Rank(Next(st, ev)) < Rank(st)
    ensures ev.Enqueue? || ev.See? || ev.Block? || ev.Unblock? ==> Rank(Next(st, ev)) == Rank(st)
  {
    StepKeepsInv(st, ev);
    if st.pc.Check? && st.pc.six == st.Schedulers() {
      assert !st.blockState.NoBlock?;
    }
  }

  // ----- the record and its operations

  const TOKEN_MARK: nat := 0xfed0_0000

  function EncodeToken(ix: nat, sched: nat): (v: nat)
    requires ix < 2 && sched < 0x1_0000
    ensures v != 0 && v < 0x1_0000_0000
  {
    TOKEN_MARK + ix * 0x1_0000 + sched
  }

  function DecodeIx(v: nat): nat { v / 0x1_0000 % 0x10 }

  function DecodeSched(v: nat): nat { v % 0x1_0000 }

  lemma TokenRoundTrip(ix: nat, sched: nat)
    requires ix < 2 && sched < 0x1_0000
    ensures DecodeIx(EncodeToken(ix, sched)) == ix
    ensures DecodeSched(EncodeToken(ix, sched)) == sched
  {
    var high := 0xfed0 + ix;
    assert EncodeToken(ix, sched) == high * 0x1_0000 + sched;
    assert EncodeToken(ix, sched) / 0x1_0000 == high;
  }

  class ReleaseLiteralAreas {
    var queue: seq<Area>
    var copyArea: Option<Area>
    var bc: array2<int>
    var blockIx: nat
    var waitSchedIx: nat
    var blockState: BlockState
    var blockArea: Option<Area>
    var pc: Pc
    ghost var st: State

    /** The fields are those of the model state s. */
    ghost predicate Mirrors(s: State)
      reads this, bc
    {
      && Shape(s)
      && bc.Length0 == s.Schedulers() && bc.Length1 == 2
      && queue == s.queue && copyArea == s.published
      && blockIx == s.blockIx && waitSchedIx == s.waitSched
      && blockState == s.blockState && blockArea == s.blockArea && pc == s.pc
      && forall i, ix :: 0 <= i < bc.Length0 && 0 <= ix < 2 ==> bc[i, ix] == s.counter[ix][i]
    }

    ghost predicate Valid()
      reads this, bc
    {
      Inv(st) && Mirrors(st)
    }

    constructor (schedulers: nat)
      ensures Valid() && fresh(bc) && st == Init(schedulers)
    {
      queue, copyArea := [], None;
      blockIx, waitSchedIx, blockState, blockArea, pc := 0, 0, NoBlock, None, Idle;
      bc := new int[schedulers, 2]((_, _) => 1);
      st := Init(schedulers);
    }

    /** `seen` is the block index the scheduler reads. */
    method BlockRelease(sched: nat, seen: nat) returns (token: nat)
      requires Valid() && sched < st.Schedulers() <= 0x1_0000 && seen == st.view[sched]
      modifies this`st, bc
      ensures Valid() && st == Next(old(st), Block(sched))
      ensures token == EncodeToken(old(st).view[sched], sched)
    {
      BlockKeeps(st, sched);
      bc[sched, seen] := bc[sched, seen] + 1;
      token := EncodeToken(seen, sched);
      st := Next(st, Block(sched));
    }

    method UnblockRelease(token: nat, ghost t: Token) returns (wake: bool)
      requires Valid() && t in st.tokens && t.sched < 0x1_0000 && token == EncodeToken(t.ix, t.sched)
      modifies this`st, bc
      ensures Valid() && st == Next(old(st), Unblock(t))
      ensures wake <==> st.mailbox == old(st).mailbox + 1
    {
      TokenRoundTrip(t.ix, t.sched);
      UnblockKeeps(st, t);
      var ix, sched := DecodeIx(token), DecodeSched(token);
      bc[sched, ix] := bc[sched, ix] - 1;
      wake := bc[sched, ix] == 0;
      st := Next(st, Unblock(t));
    }

    method QueueArea(area: Area)
      requires Valid()
      modifies this`queue, this`st
      ensures Valid() && st == Next(old(st), Enqueue(area))
    {
      QuietKeeps(st, Enqueue(area));
      queue := queue + [area];
      st := Next(st, Enqueue(area));
    }

    method TakeNextArea()
      modifies this`queue, this`copyArea
      ensures queue == if old(queue) == [] then [] else old(queue)[1..]
      ensures copyArea == if old(queue) == [] then None else Some(old(queue)[0])
    {
      if queue == [] {
        copyArea := None;
      } else {
        copyArea := Some(queue[0]);
        queue := queue[1..];
      }
    }

    /** One atomic step of the collector's loop; the other methods run between two steps. */
    method SwitchStep()
      requires Valid() && Enabled(st, Collect)
      modifies this, bc
      ensures Valid() && bc == old(bc)
      ensures st == Next(old(st), Collect)
    {
      StepKeepsInv(st, Collect);
      ghost var st' := CollectorStep(st);
      if pc.Entry? {
        EnterSwitch();
      } else if pc.Stall? {
        StallStep();
      } else {
        ScanStep();
      }
      assert Mirrors(st');
      st := st';
    }

    /** One access to a counter. */
    method ScanStep()
      requires Valid() && CollectorReady(st) && (pc.Check? || pc.Drop? || pc.Restore?)
      modifies this`blockState, this`blockArea, this`pc, bc
      ensures Mirrors(CollectorStep(st))
    {
      var waitIx := 1 - blockIx;
      match pc {
        case Check(six) =>
          if six == bc.Length0 {
            blockState := NoBlock;
            blockArea := None;
            pc := Entry;
          } else if bc[six, waitIx] == 1 {
            pc := Check(six + 1);
          } else {
            pc := Drop(six);
          }
        case Drop(six) =>
          bc[six, waitIx] := bc[six, waitIx] - 1;
          pc := if bc[six, waitIx] == 0 then Restore(six) else Stall(six);
        case Restore(six) =>
          bc[six, waitIx] := bc[six, waitIx] + 1;
          pc := Check(six + 1);
      }
    }

    /** The counter did not reach zero; a new area may be published meanwhile. */
    method StallStep()
      requires Valid() && CollectorReady(st) && pc.Stall?
      modifies this`queue, this`copyArea, this`waitSchedIx, this`blockState, this`pc
      ensures Mirrors(CollectorStep(st))
    {
      waitSchedIx := pc.six;
      blockState := Waiting;
      if copyArea.Some? {
        pc := Trapped;
      } else {
        TakeNextArea();
        pc := if copyArea.Some? then AwaitProgress(false) else Trapped;
      }
    }

    /** No area is waited for: publish the next, and switch the index for the last. */
    method PublishNext()
      requires Valid() && pc == Entry && blockState.NoBlock?
      modifies this`queue, this`copyArea, this`blockIx, this`blockState, this`blockArea, this`pc
      ensures Mirrors(EntryStep(st))
    {
      var oldArea := copyArea;
      TakeNextArea();
      if oldArea.Some? {
        blockIx := 1 - blockIx;
        blockState := SwitchedIx;
        blockArea := oldArea;
      }
      pc := if oldArea.None? && copyArea.None? then Idle else AwaitProgress(copyArea.None?);
    }

    /** The three block states at the top of the loop. */
    method EnterSwitch()
      requires Valid() && pc == Entry && CollectorReady(st)
      modifies this`queue, this`copyArea, this`blockIx, this`blockState, this`blockArea, this`pc, bc
      ensures Mirrors(EntryStep(st))
    {
      match blockState {
        case NoBlock =>
          PublishNext();
        case SwitchedIx =>
          pc := Check(0);
        case Waiting =>
          bc[waitSchedIx, 1 - blockIx] := bc[waitSchedIx, 1 - blockIx] + 1;
          pc := Check(waitSchedIx);
      }
    }
  }
}
