module CodeIndex {
  // Code indices (code_ix.c) and their use when code is loaded, deleted and purged
  // (beam_bif_load.c).  There are three logical copies of the code.  Schedulers
  // read the copy of the active index without locks, possibly a stale index, and
  // keep it until the call that read it returns; a change is staged in another
  // copy and made visible by one switch of the active index after a code barrier.

  import opened Options

  type Mod = nat
  type Gen = nat       // the group load that loaded a module instance

  const NUM_CODE_IX: nat := 3

  /** The current and the old instances of the modules in one copy. */
  datatype Content = Content(curr: map<Mod, Gen>, older: map<Mod, Gen>)

  datatype Phase = Boot | Quiet | Staging | Ended

  datatype State = State(
    active: nat,
    staging: nat,
    copy: seq<Content>,
    phase: Phase,
    view: seq<nat>,                    // the active index each scheduler sees
    reader: seq<Option<nat>>,          // the index held by the call running there
    acked: set<nat>,                   // schedulers that have passed the barrier
    // history
    snap: seq<map<Mod, Gen>>,          // what the running call saw when it began
    group: set<Mod>,                   // modules loaded in this staging
    committed: seq<map<Mod, Gen>>,     // the current modules after each commit
    loaded: seq<set<Mod>>)             // the group of each commit
  {
    function Schedulers(): nat { |view| }
    function Prev(): nat { (active + 2) % NUM_CODE_IX }
  }

  datatype Event =
    | Preload(m: Mod)
    | BootCommit
    | Start
    | Load(m: Mod)
    | Delete(m: Mod)
    | End
    | Ack(s: nat)
    | Commit
    | BlockingCommit
    | Abort
    | Purge(m: Mod)
    | See(s: nat)
    | Enter(s: nat)
    | Leave(s: nat)

  function Init(n: nat): State {
    State(0, 0, [Content(map[], map[]), Content(map[], map[]), Content(map[], map[])], Boot,
          seq(n, _ => 0), seq(n, _ => None), {}, seq(n, _ => map[]), {}, [], [])
  }

  predicate Shape(st: State) {
    && |st.copy| == 3 && st.active < 3 && st.staging < 3
    && |st.reader| == |st.snap| == st.Schedulers()
    && (forall s :: 0 <= s < |st.view| ==> st.view[s] < 3)
  }

  predicate CanMakeOld(c: Content, m: Mod) {
    !(m in c.curr && m in c.older)
  }

  function MakeOld(c: Content, m: Mod): Content {
    if m in c.curr then Content(c.curr - {m}, c.older[m := c.curr[m]]) else c
  }

  function Install(c: Content, m: Mod, g: Gen): Content {
    var c := MakeOld(c, m);
    c.(curr := c.curr[m := g])
  }

  predicate Enabled(st: State, ev: Event) {
    && Shape(st)
    && match ev
       case Preload(m) => st.phase.Boot? && CanMakeOld(st.copy[st.staging], m)
       case BootCommit => st.phase.Boot?
       case Start => st.phase.Quiet?
       case Load(m) => st.phase.Staging? && CanMakeOld(st.copy[st.staging], m)
       case Delete(m) => st.phase.Staging? && m in st.copy[st.staging].curr && CanMakeOld(st.copy[st.staging], m)
       case End => st.phase.Staging?
       case Ack(s) => st.phase.Ended? && s < st.Schedulers() && st.reader[s].None?
       case Commit => st.phase.Ended? && forall s :: 0 <= s < st.Schedulers() ==> s in st.acked
       case BlockingCommit => st.phase.Staging? && forall s :: 0 <= s < st.Schedulers() ==> st.reader[s].None?
       case Abort => st.phase.Staging?
       case Purge(m) => st.phase.Quiet? && m in st.copy[st.active].older
       case See(s) => !st.phase.Boot? && s < st.Schedulers()
       case Enter(s) => !st.phase.Boot? && s < st.Schedulers() && st.reader[s].None?
       case Leave(s) => s < st.Schedulers() && st.reader[s].Some?
  }

  function Switch(st: State): State
    requires Shape(st)
  {
    st.(active := st.staging, staging := (st.staging + 1) % NUM_CODE_IX, phase := Quiet,
        committed := st.committed + [st.copy[st.staging].curr], loaded := st.loaded + [st.group])
  }

  function Next(st: State, ev: Event): State
    requires Enabled(st, ev)
  {
    match ev
    case Preload(m) => Stage(st, Install(st.copy[st.staging], m, |st.committed|), st.group + {m})
    case BootCommit => Switch(st)
    case Start => Stage(st, st.copy[st.active], {}).(phase := Staging)
    case Load(m) => Stage(st, Install(st.copy[st.staging], m, |st.committed|), st.group + {m})
    case Delete(m) => Stage(st, MakeOld(st.copy[st.staging], m), st.group - {m})
    case End => st.(phase := Ended, acked := {})
    case Ack(s) => st.(acked := st.acked + {s}, view := st.view[s := st.active])
    case Commit => Switch(st)
    case BlockingCommit => var st' := Switch(st); st'.(view := seq(|st.view|, _ => st'.active))
    case Abort => st.(phase := Quiet)
    case Purge(m) =>
      var c := st.copy[st.active];
      st.(copy := st.copy[st.active := c.(older := c.older - {m})])
    case See(s) => st.(view := st.view[s := st.active])
    case Enter(s) =>
      st.(reader := st.reader[s := Some(st.view[s])], snap := st.snap[s := st.copy[st.view[s]].curr])
    case Leave(s) => st.(reader := st.reader[s := None])
  }

  function Stage(st: State, c: Content, group: set<Mod>): State
    requires Shape(st)
  {
    st.(copy := st.copy[st.staging := c], group := group)
  }

  // ----- the invariant

  /** Once booted, staging is one ahead of active, and every index seen or held is the
      active or the previously active one. */
  predicate Rotates(st: State)
    requires Shape(st)
  {
    if st.phase.Boot? then
      && st.active == st.staging == 0 && st.committed == []
      && (forall s :: 0 <= s < st.Schedulers() ==> st.view[s] == 0 && st.reader[s].None?)
    else
      && st.staging == (st.active + 1) % 3
      && (forall s :: 0 <= s < st.Schedulers() ==> st.view[s] == st.active || st.view[s] == st.Prev())
      && (forall s :: 0 <= s < st.Schedulers() && st.reader[s].Some? ==>
            st.reader[s].value == st.active || st.reader[s].value == st.Prev())
  }

  /** A scheduler past the barrier neither sees nor holds the previously active index. */
  predicate AckedFresh(st: State)
    requires Shape(st)
  {
    st.phase.Ended? ==>
      forall s :: s in st.acked && s < st.Schedulers() ==>
        st.view[s] == st.active && (st.reader[s].Some? ==> st.reader[s].value == st.active)
  }

  predicate Committed(st: State)
    requires Shape(st)
  {
    && |st.committed| == |st.loaded|
    && (!st.phase.Boot? ==>
          && |st.committed| > 0
          && st.copy[st.active].curr == st.committed[|st.committed| - 1]
          && (|st.committed| > 1 ==> st.copy[st.Prev()].curr == st.committed[|st.committed| - 2])
          && (|st.committed| == 1 ==> forall s :: 0 <= s < st.Schedulers() ==>
                st.view[s] == st.active && (st.reader[s].Some? ==> st.reader[s].value == st.active)))
  }

  /** A running call still sees the current modules it saw when it began. */
  predicate Stable(st: State)
    requires Shape(st)
  {
    forall s :: 0 <= s < st.Schedulers() && st.reader[s].Some? && st.reader[s].value < 3 ==>
      st.copy[st.reader[s].value].curr == st.snap[s]
  }

  /** The modules of generation g in c are those in group, and there is no later one. */
  ghost predicate Newest(c: map<Mod, Gen>, g: Gen, group: set<Mod>) {
    forall m :: (m in c ==> c[m] <= g) && (m in group <==> m in c && c[m] == g)
  }

  ghost predicate Generations(st: State)
    requires Shape(st)
  {
    && |st.committed| == |st.loaded|
    && (forall i :: 0 <= i < |st.committed| ==> Newest(st.committed[i], i, st.loaded[i]))
    && (st.phase.Boot? || st.phase.Staging? || st.phase.Ended? ==>
          Newest(st.copy[st.staging].curr, |st.committed|, st.group))
  }

  ghost predicate Inv(st: State) {
    Shape(st) && Rotates(st) && AckedFresh(st) && Committed(st) && Stable(st) && Generations(st)
  }

  lemma CommitKeeps(st: State, ev: Event)
    requires Inv(st) && Enabled(st, ev) && (ev.BootCommit? || ev.Commit? || ev.BlockingCommit?)
    ensures Inv(Next(st, ev))
  {
  }

  lemma StartKeeps(st: State)
    requires Inv(st) && Enabled(st, Start)
    ensures Inv(Next(st, Start))
  {
  }

  lemma StageKeeps(st: State, ev: Event)
    requires Inv(st) && Enabled(st, ev) && (ev.Preload? || ev.Load? || ev.Delete?)
    ensures Inv(Next(st, ev))
  {
  }

  predicate Commits(ev: Event) {
    ev.BootCommit? || ev.Commit? || ev.BlockingCommit?
  }

  predicate Stages(ev: Event) {
    ev.Preload? || ev.Start? || ev.Load? || ev.Delete?
  }

  predicate ReaderStep(ev: Event) {
    ev.Ack? || ev.See? || ev.Enter? || ev.Leave?
  }

  lemma SeeKeeps(st: State, ev: Event)
    requires Inv(st) && Enabled(st, ev) && (ev.Ack? || ev.See?)
    ensures Inv(Next(st, ev))
  {
  }

  lemma EnterKeeps(st: State, ev: Event)
    requires Inv(st) && Enabled(st, ev) && (ev.Enter? || ev.Leave?)
    ensures Inv(Next(st, ev))
  {
  }

  lemma OtherKeeps(st: State, ev: Event)
    requires Inv(st) && Enabled(st, ev) && !Commits(ev) && !Stages(ev) && !ReaderStep(ev)
    ensures Inv(Next(st, ev))
  {
  }

  lemma SameSchedulers(st: State, ev: Event)
    requires Inv(st) && Enabled(st, ev)
    ensures Next(st, ev).Schedulers() == st.Schedulers()
  {
  }

  lemma StepKeepsInv(st: State, ev: Event)
    requires Inv(st) && Enabled(st, ev)
    ensures Inv(Next(st, ev)) && Next(st, ev).Schedulers() == st.Schedulers()
  {
    SameSchedulers(st, ev);
    if Commits(ev) {
      CommitKeeps(st, ev);
    } else if Stages(ev) {
      if ev.Start? {
        StartKeeps(st);
      } else {
        StageKeeps(st, ev);
      }
    } else if ev.Ack? || ev.See? {
      SeeKeeps(st, ev);
    } else if ReaderStep(ev) {
      EnterKeeps(st, ev);
    } else {
      OtherKeeps(st, ev);
    }
  }

  // ----- whole runs

  predicate Run(n: nat, states: seq<State>, events: seq<Event>) {
    && |states| == |events| + 1
    && states[0] == Init(n)
    && forall i :: 0 <= i < |events| ==> Enabled(states[i], events[i]) && states[i + 1] == Next(states[i], events[i])
  }

  lemma {:induction false} RunKeepsInv(n: nat, states: seq<State>, events: seq<Event>, i: nat)
    requires Run(n, states, events) && i < |states|
    ensures Inv(states[i]) && states[i].Schedulers() == n
  {
    if i > 0 {
      RunKeepsInv(n, states, events, i - 1);
      StepKeepsInv(states[i - 1], events[i - 1]);
    }
  }

  /** Once booted, no scheduler sees or holds the index that staging writes. */
  lemma StagingIsUnread(n: nat, states: seq<State>, events: seq<Event>, i: nat, s: nat)
    requires Run(n, states, events) && i < |states| && !states[i].phase.Boot? && s < states[i].Schedulers()
    ensures Shape(states[i]) && states[i].view[s] != states[i].staging
    ensures states[i].reader[s] != Some(states[i].staging)
  {
    RunKeepsInv(n, states, events, i);
  }

  lemma StillReading(st: State, ev: Event, s: nat)
    requires Inv(st) && Enabled(st, ev) && s < st.Schedulers() && st.reader[s].Some? && ev != Leave(s)
    ensures var st' := Next(st, ev);
            |st'.reader| == |st'.snap| == st.Schedulers() && st'.reader[s] == st.reader[s] && st'.snap[s] == st.snap[s]
  {
  }

  predicate Reads(st: State, s: nat, ix: nat, seen: map<Mod, Gen>) {
    s < |st.reader| == |st.snap| && st.reader[s] == Some(ix) && st.snap[s] == seen
  }

  lemma EnterReads(st: State, s: nat)
    requires Enabled(st, Enter(s))
    ensures Reads(Next(st, Enter(s)), s, st.view[s], st.copy[st.view[s]].curr)
  {
  }

  lemma {:induction false} KeepsReading(n: nat, states: seq<State>, events: seq<Event>, i: nat, j: nat, s: nat, ix: nat, seen: map<Mod, Gen>)
    requires Run(n, states, events) && i <= j < |states| && Reads(states[i], s, ix, seen)
    requires forall k :: i <= k < j ==> events[k] != Leave(s)
    ensures Reads(states[j], s, ix, seen)
  {
    if j > i {
      KeepsReading(n, states, events, i, j - 1, s, ix, seen);
      RunKeepsInv(n, states, events, j - 1);
      StillReading(states[j - 1], events[j - 1], s);
    }
  }

  /** From the entry of a call until it leaves, the modules it sees do not change. */
  lemma CallSeesOneVersion(n: nat, states: seq<State>, events: seq<Event>, i: nat, j: nat, s: nat)
    requires Run(n, states, events) && i < j < |states| && events[i] == Enter(s)
    requires forall k :: i < k < j ==> events[k] != Leave(s)
    ensures Shape(states[i]) && s < states[i].Schedulers() && Shape(states[j])
    ensures Reads(states[j], s, states[i].view[s], states[i].copy[states[i].view[s]].curr)
    ensures states[j].copy[states[i].view[s]].curr == states[i].copy[states[i].view[s]].curr
  {
    EnterReads(states[i], s);
    KeepsReading(n, states, events, i + 1, j, s, states[i].view[s], states[i].copy[states[i].view[s]].curr);
    RunKeepsInv(n, states, events, j);
  }

  /** What a running call sees is one of the last two committed versions: it has every
      module of that version's group and no module of any later group. */
  lemma CallSeesWholeGroups(n: nat, states: seq<State>, events: seq<Event>, j: nat, s: nat) returns (k: nat)
    requires Run(n, states, events) && j < |states| && s < states[j].Schedulers()
    requires Shape(states[j]) && states[j].reader[s].Some?
    ensures var st := states[j];
            && k < |st.committed| == |st.loaded| <= k + 2
            && st.reader[s].value < 3 && st.copy[st.reader[s].value].curr == st.committed[k]
            && (forall m :: m in st.loaded[k] <==> m in st.committed[k] && st.committed[k][m] == k)
            && (forall m :: m in st.committed[k] ==> st.committed[k][m] <= k)
  {
    RunKeepsInv(n, states, events, j);
    var st := states[j];
    k := if st.reader[s].value == st.active then |st.committed| - 1 else |st.committed| - 2;
    assert Newest(st.committed[k], k, st.loaded[k]);
  }

  // ----- loading a group of modules

  datatype LoadResult = Loaded | Duplicated(mods: seq<Mod>) | NotPurged(mods: seq<Mod>)

  predicate Distinct(mods: seq<Mod>) {
    forall i, j :: 0 <= i < j < |mods| ==> mods[i] != mods[j]
  }

  /** c' is c after all of mods have been loaded as generation g. */
  ghost predicate GroupLoaded(c: Content, mods: seq<Mod>, g: Gen, c': Content) {
    forall m ::
      && (m in c'.curr <==> m in c.curr || m in mods)
      && (m in c'.curr ==> c'.curr[m] == if m in mods then g else c.curr[m])
      && (m in c'.older <==> m in c.older || (m in mods && m in c.curr))
      && (m in c'.older ==> c'.older[m] == if m in mods && m in c.curr then c.curr[m] else c.older[m])
  }

  lemma GroupGrows(c: Content, mods: seq<Mod>, g: Gen, c': Content, i: nat)
    requires i < |mods| && Distinct(mods) && GroupLoaded(c, mods[..i], g, c')
    requires CanMakeOld(c, mods[i])
    ensures CanMakeOld(c', mods[i]) && GroupLoaded(c, mods[..i + 1], g, Install(c', mods[i], g))
  {
    assert mods[..i + 1] == mods[..i] + [mods[i]];
    assert mods[i] !in mods[..i];
  }

  predicate Twice(mods: seq<Mod>, m: Mod) {
    exists i, j :: 0 <= i < j < |mods| && mods[i] == m && mods[j] == m
  }

  /** The modules seen before, latest first. */
  method FindDuplicates(mods: seq<Mod>) returns (exceptions: seq<Mod>)
    ensures exceptions == [] <==> Distinct(mods)
    ensures forall m :: m in exceptions <==> Twice(mods, m)
  {
    var seen: set<Mod> := {};
    exceptions := [];
    for i := 0 to |mods|
      invariant forall m :: m in seen <==> m in mods[..i]
      invariant forall m :: m in exceptions <==> Twice(mods[..i], m)
    {
      TwiceGrows(mods, i);
      if mods[i] in seen {
        exceptions := [mods[i]] + exceptions;
      }
      seen := seen + {mods[i]};
    }
    assert mods[..|mods|] == mods;
    if exceptions != [] {
      assert Twice(mods, exceptions[0]);
    } else {
      forall i, j | 0 <= i < j < |mods|
        ensures mods[i] != mods[j]
      {
        assert !Twice(mods, mods[i]);
      }
    }
  }

  lemma TwiceGrows(mods: seq<Mod>, i: nat)
    requires i < |mods|
    ensures mods[..i + 1] == mods[..i] + [mods[i]]
    ensures forall m :: Twice(mods[..i + 1], m) <==> Twice(mods[..i], m) || (m == mods[i] && m in mods[..i])
  {
    var a, b := mods[..i], mods[..i + 1];
    forall m
      ensures Twice(b, m) <==> Twice(a, m) || (m == mods[i] && m in a)
    {
      if Twice(a, m) {
        var j, k :| 0 <= j < k < |a| && a[j] == m && a[k] == m;
        assert b[j] == m && b[k] == m;
      }
      if m == mods[i] && m in a {
        var j :| 0 <= j < |a| && a[j] == m;
        assert b[j] == m && b[i] == m;
      }
      if Twice(b, m) {
        var j, k :| 0 <= j < k < |b| && b[j] == m && b[k] == m;
        assert a[j] == m;
      }
    }
  }

  /** The modules that already have old code to purge, latest first. */
  method FindUnpurged(mods: seq<Mod>, c: Content) returns (exceptions: seq<Mod>)
    ensures forall m :: m in exceptions <==> m in mods && !CanMakeOld(c, m)
  {
    exceptions := [];
    for i := 0 to |mods|
      invariant forall m :: m in exceptions <==> m in mods[..i] && !CanMakeOld(c, m)
    {
      assert mods[..i + 1] == mods[..i] + [mods[i]];
      if !CanMakeOld(c, mods[i]) {
        exceptions := [mods[i]] + exceptions;
      }
    }
    assert mods[..|mods|] == mods;
  }

  class CodeIndices {
    var active: nat
    var staging: nat
    const copies: array<Content>
    ghost var st: State

    ghost predicate Valid()
      reads this, copies
    {
      && Inv(st) && active == st.active && staging == st.staging
      && copies.Length == 3 && copies[..] == st.copy
    }

    constructor (schedulers: nat)
      ensures Valid() && st == Init(schedulers)
    {
      active, staging := 0, 0;
      copies := new Content[3](_ => Content(map[], map[]));
      st := Init(schedulers);
      new;
      assert copies[..] == st.copy;
    }

    method StartStaging()
      requires Valid() && Enabled(st, Start)
      modifies this`st, copies
      ensures Valid() && st == Next(old(st), Start)
    {
      StepKeepsInv(st, Start);
      copies[staging] := copies[active];
      st := Next(st, Start);
    }

    method LoadModule(m: Mod, gen: Gen)
      requires Valid() && Enabled(st, Load(m)) && gen == |st.committed|
      modifies this`st, copies
      ensures Valid() && st == Next(old(st), Load(m))
    {
      StepKeepsInv(st, Load(m));
      copies[staging] := Install(copies[staging], m, gen);
      st := Next(st, Load(m));
    }

    method CommitStaging()
      requires Valid() && Enabled(st, Commit)
      modifies this
      ensures Valid() && st == Next(old(st), Commit)
    {
      StepKeepsInv(st, Commit);
      var ix := staging;
      active := ix;
      staging := (ix + 1) % NUM_CODE_IX;
      st := Next(st, Commit);
    }

    method EndStaging()
      requires Valid() && Enabled(st, End)
      modifies this`st
      ensures Valid() && st == Next(old(st), End)
    {
      StepKeepsInv(st, End);
      st := Next(st, End);
    }

    method AbortStaging()
      requires Valid() && Enabled(st, Abort)
      modifies this`st
      ensures Valid() && st == Next(old(st), Abort)
    {
      StepKeepsInv(st, Abort);
      st := Next(st, Abort);
    }

    method LoadAll(mods: seq<Mod>, gen: Gen, ghost c: Content)
      requires Valid() && st.phase.Staging? && gen == |st.committed| && Distinct(mods)
      requires st.copy[st.staging] == c && forall i :: 0 <= i < |mods| ==> CanMakeOld(c, mods[i])
      modifies this`st, copies
      ensures Valid() && GroupLoaded(c, mods, gen, st.copy[st.staging])
      ensures st == old(st).(copy := old(st).copy[st.staging := st.copy[st.staging]], group := st.group)
    {
      assert GroupLoaded(c, mods[..0], gen, c);
      for i := 0 to |mods|
        invariant Valid() && GroupLoaded(c, mods[..i], gen, st.copy[st.staging])
        invariant st == old(st).(copy := old(st).copy[st.staging := st.copy[st.staging]], group := st.group)
      {
        GroupGrows(c, mods, gen, st.copy[st.staging], i);
        LoadModule(mods[i], gen);
      }
      assert mods[..|mods|] == mods;
    }

    /** A group is staged as a whole, or nothing the schedulers can see is touched. */
    method FinishLoading(mods: seq<Mod>, gen: Gen) returns (r: LoadResult)
      requires Valid() && Enabled(st, Start) && gen == |st.committed|
      modifies this`st, copies
      ensures Valid()
      ensures r.Loaded? <==> Distinct(mods) && forall m :: m in mods ==> CanMakeOld(old(st).copy[active], m)
      ensures r.Loaded? ==> st.phase.Ended? && GroupLoaded(old(st).copy[active], mods, gen, st.copy[staging])
      ensures !r.Loaded? ==> st.phase.Quiet?
      ensures r.Duplicated? ==> !Distinct(mods) && forall m :: m in r.mods <==> Twice(mods, m)
      ensures r.NotPurged? ==> Distinct(mods) && forall m :: m in r.mods <==> m in mods && !CanMakeOld(old(st).copy[active], m)
      ensures st == old(st).(copy := old(st).copy[staging := st.copy[staging]],
                             group := st.group, phase := st.phase, acked := st.acked)
    {
      ghost var before := st;
      StartStaging();
      var exceptions := FindDuplicates(mods);
      if exceptions != [] {
        AbortStaging();
        return Duplicated(exceptions);
      }
      exceptions := FindUnpurged(mods, copies[staging]);
      if exceptions != [] {
        assert exceptions[0] in exceptions;
        AbortStaging();
        return NotPurged(exceptions);
      }
      forall m | m in mods
        ensures CanMakeOld(before.copy[active], m)
      {
        assert m !in exceptions;
      }
      LoadAll(mods, gen, copies[staging]);
      EndStaging();
      r := Loaded;
    }
  }
}
