module Purge {
  // Purging old code (beam_bif_load.c).  The code purger prepares a purge, which marks
  // the module's funs, and later aborts or completes it.  Meanwhile a process that
  // calls such a fun is suspended and recorded, to be resumed when the purge ends.

  import opened Options

  type Mod = nat
  type Pid = nat
  type Fun = nat

  const DEF_SIZE: nat := 10
  const GROWTH: nat := 100

  // ----- the protocol

  datatype State = State(
    mod: Option<Mod>,             // purge_state.module
    funs: nat,                    // fe_count
    sprocs: seq<Pid>,             // the processes recorded
    alive: set<Pid>,
    suspends: multiset<Pid>,      // every suspension there ever was
    resumes: multiset<Pid>,       // every resumption
    held: bool,                   // the purger holds the stage permission
    aborting: bool,               // finalize_purge_abort is scheduled
    waiting: bool,                // the purger itself is suspended
    stray: bool)                  // the stage permission was released while not held

  datatype Event =
    | Prepare(m: Mod, old_: bool, nfuns: nat)   // old_: the module has old code, with nfuns funs
    | Abort(m: Mod)
    | Complete(m: Mod)
    | BadRequest                                // not an atom, or an unknown operation
    | ThreadProgress
    | CallFun(p: Pid, m: Mod)                   // about to call a fun of m that is marked
    | Exit(p: Pid)

  predicate Suspended(st: State, p: Pid) {
    st.suspends[p] > st.resumes[p]
  }

  /** The purger makes one request at a time, and a suspended process makes no call. */
  predicate Enabled(st: State, e: Event) {
    match e
    case ThreadProgress => st.waiting
    case CallFun(p, m) => p in st.alive && !Suspended(st, p)
    case Exit(p) => p in st.alive
    case _ => !st.waiting
  }

  function Release(st: State): State {
    st.(held := false, stray := st.stray || !st.held)
  }

  /** One resumption for each record of a process that is still alive. */
  function Resumed(sprocs: seq<Pid>, alive: set<Pid>): multiset<Pid> {
    if sprocs == [] then multiset{}
    else Resumed(sprocs[1..], alive) + if sprocs[0] in alive then multiset{sprocs[0]} else multiset{}
  }

  function Finalize(st: State): State {
    st.(mod := None, resumes := st.resumes + Resumed(st.sprocs, st.alive), sprocs := [], funs := 0)
  }

  function BadArg(st: State): State {
    if st.funs > 0 then Release(st) else st
  }

  function Next(st: State, e: Event): State {
    match e
    case Prepare(m, old_, nfuns) =>
      if st.mod.Some? then BadArg(st)
      else if !old_ then Release(st.(held := true))
      else
        var marked := st.(mod := Some(m), funs := nfuns, held := true, waiting := true);
        if nfuns == 0 then Release(marked) else marked
    case Abort(m) =>
      if st.mod != Some(m) then BadArg(st)
      else if st.funs > 0 then st.(aborting := true, waiting := true)
      else Finalize(st)
    case Complete(m) =>
      if st.mod != Some(m) then BadArg(st)
      else Finalize(if st.funs > 0 then Release(st) else st)
    case BadRequest => BadArg(st)
    case ThreadProgress =>
      if st.aborting then Finalize(Release(st)).(aborting := false, waiting := false)
      else st.(waiting := false)
    case CallFun(p, m) =>
      if st.mod == Some(m) then st.(sprocs := st.sprocs + [p], suspends := st.suspends + multiset{p}) else st
    case Exit(p) => st.(alive := st.alive - {p})
  }

  /** A request that is refused. */
  predicate IsBadArg(st: State, e: Event) {
    match e
    case Prepare(_, _, _) => st.mod.Some?
    case Abort(m) => st.mod != Some(m)
    case Complete(m) => st.mod != Some(m)
    case BadRequest => true
    case _ => false
  }

  // ----- the invariant

  /** A live process has been resumed once for every suspension that is not recorded. */
  ghost predicate Recorded(st: State) {
    forall p :: p in st.alive ==> st.suspends[p] == st.resumes[p] + multiset(st.sprocs)[p] && multiset(st.sprocs)[p] <= 1
  }

  /** The stage permission is held during a purge exactly if there are funs to purge. */
  predicate HeldRight(st: State) {
    st.held <==> st.mod.Some? && st.funs > 0
  }

  predicate Control(st: State) {
    && (st.mod.None? ==> st.sprocs == [] && st.funs == 0)
    && (st.aborting ==> st.mod.Some? && st.funs > 0 && st.waiting)
  }

  ghost predicate Inv(st: State) {
    Recorded(st) && HeldRight(st) && Control(st) && !st.stray
  }

  lemma {:induction false} ResumedCount(sprocs: seq<Pid>, alive: set<Pid>, p: Pid)
    ensures Resumed(sprocs, alive)[p] == if p in alive then multiset(sprocs)[p] else 0
  {
    if sprocs != [] {
      ResumedCount(sprocs[1..], alive, p);
      assert sprocs == [sprocs[0]] + sprocs[1..];
      assert multiset(sprocs) == multiset{sprocs[0]} + multiset(sprocs[1..]);
    }
  }

  /** Ending a purge resumes every live process it suspended, each exactly once. */
  lemma FinalizeResumes(st: State, p: Pid)
    requires Recorded(st) && p in st.alive
    ensures Finalize(st).suspends[p] == Finalize(st).resumes[p] && !Suspended(Finalize(st), p)
    ensures Finalize(st).resumes[p] == st.resumes[p] + if Suspended(st, p) then 1 else 0
  {
    ResumedCount(st.sprocs, st.alive, p);
  }

  lemma FinalizeRecorded(st: State)
    requires Recorded(st)
    ensures Recorded(Finalize(st))
  {
    forall p | p in st.alive
      ensures Finalize(st).suspends[p] == Finalize(st).resumes[p] + multiset(Finalize(st).sprocs)[p]
    {
      FinalizeResumes(st, p);
    }
  }

  lemma CallRecorded(st: State, p: Pid, m: Mod)
    requires Recorded(st) && p in st.alive && !Suspended(st, p)
    ensures Recorded(Next(st, CallFun(p, m)))
  {
    var st' := Next(st, CallFun(p, m));
    assert multiset(st.sprocs + [p]) == multiset(st.sprocs) + multiset{p};
  }

  /** Every step but a refused request during a purge that has funs. */
  lemma StepKeepsInv(st: State, e: Event)
    requires Inv(st) && Enabled(st, e) && !(IsBadArg(st, e) && st.funs > 0)
    ensures Inv(Next(st, e))
  {
    match e
    case Prepare(m, old_, n) =>
    case Abort(m) => FinalizeRecorded(st);
    case Complete(m) =>
      var st1 := if st.funs > 0 then Release(st) else st;
      FinalizeRecorded(st1);
    case BadRequest =>
    case ThreadProgress => FinalizeRecorded(Release(st));
    case CallFun(p, m) => CallRecorded(st, p, m);
    case Exit(p) =>
  }

  /** The permission stays right exactly if no request is refused while there are funs:
      the refusal releases a permission that the purge still needs. */
  lemma HeldRightIff(st: State, e: Event)
    requires Inv(st) && Enabled(st, e)
    ensures HeldRight(Next(st, e)) <==> !(IsBadArg(st, e) && st.funs > 0)
  {
    if !(IsBadArg(st, e) && st.funs > 0) {
      StepKeepsInv(st, e);
    }
  }

  const IDLE := State(None, 0, [], {}, multiset{}, multiset{}, false, false, false, false)

  /** Then completing the purge releases it a second time. */
  lemma RefusalStrands(m: Mod)
    ensures var st1 := Next(Next(Next(IDLE, Prepare(m, true, 1)), ThreadProgress), Prepare(m, true, 1));
      Inv(IDLE) && !st1.held && st1.funs == 1 && Next(st1, Complete(m)).stray
  {
  }

  // ----- runs of a purger that follows prepare with abort or complete

  ghost predicate IsRun(st: State, es: seq<Event>, st': State)
    decreases |es|
  {
    if es == [] then st' == st
    else Enabled(st, es[0]) && !IsBadArg(st, es[0]) && IsRun(Next(st, es[0]), es[1..], st')
  }

  lemma {:induction false} RunKeepsInv(st: State, es: seq<Event>, st': State)
    requires Inv(st) && IsRun(st, es, st')
    ensures Inv(st')
    decreases |es|
  {
    if es != [] {
      StepKeepsInv(st, es[0]);
      RunKeepsInv(Next(st, es[0]), es[1..], st');
    }
  }

  /** In every such run, when no purge is on no live process is left suspended, and no
      stage permission is left held. */
  lemma NobodyLeftSuspended(alive: set<Pid>, es: seq<Event>, st: State, p: Pid)
    requires IsRun(IDLE.(alive := alive), es, st) && st.mod.None? && p in st.alive
    ensures !Suspended(st, p) && st.suspends[p] == st.resumes[p] && !st.held && !st.stray
  {
    RunKeepsInv(IDLE.(alive := alive), es, st);
  }

  // ----- the growable arrays

  /** Adds to sprocs or funs, which are in use up to count. */
  method Append(a: array<nat>, count: nat, x: nat) returns (a': array<nat>)
    requires count <= a.Length
    modifies a
    ensures count < a'.Length && a'[..count] == old(a[..count]) && a'[count] == x
    ensures a' == a || (fresh(a') && a'.Length == a.Length + GROWTH && count == a.Length)
  {
    a' := a;
    if count >= a.Length {
      a' := new nat[a.Length + GROWTH];
      var i := 0;
      while i < count
        invariant i <= count && a'[..i] == a[..i] && a[..count] == old(a[..count])
      {
        a'[i] := a[i];
        i := i + 1;
      }
    }
    a'[count] := x;
  }

  class PurgeState {
    var mod: Option<Mod>
    var funs: array<Fun>
    var feCount: nat
    var sprocs: array<Pid>
    var spIx: nat
    var suspended: map<Pid, nat>      // how often every live process is suspended

    ghost predicate Valid()
      reads this
    {
      feCount <= funs.Length && spIx <= sprocs.Length && funs != sprocs
    }

    ghost function Funs(): seq<Fun>
      requires Valid()
      reads this, funs
    {
      funs[..feCount]
    }

    ghost function Sprocs(): seq<Pid>
      requires Valid()
      reads this, sprocs
    {
      sprocs[..spIx]
    }

    constructor (processes: map<Pid, nat>)
      ensures Valid() && mod.None? && Funs() == [] && Sprocs() == [] && suspended == processes
      ensures fresh(funs) && fresh(sprocs)
    {
      mod, feCount, spIx, suspended := None, 0, 0, processes;
      var f, s := new Fun[DEF_SIZE], new Pid[DEF_SIZE];
      funs, sprocs := f, s;
    }

    method AddFun(fe: Fun)
      requires Valid() && mod.Some?
      modifies this`funs, this`feCount, funs
      ensures Valid() && Funs() == old(Funs()) + [fe] && Sprocs() == old(Sprocs())
      ensures funs == old(funs) || fresh(funs)
    {
      ghost var sp := Sprocs();
      funs := Append(funs, feCount, fe);
      feCount := feCount + 1;
      assert sprocs[..spIx] == sp;
    }

    /** A process is about to call a fun of module m. */
    method SuspendOnPending(p: Pid, m: Mod)
      requires Valid() && p in suspended
      modifies this`sprocs, this`spIx, this`suspended, sprocs
      ensures Valid() && Funs() == old(Funs()) && (sprocs == old(sprocs) || fresh(sprocs))
      ensures mod == Some(m) ==> Sprocs() == old(Sprocs()) + [p] && suspended == old(suspended)[p := old(suspended)[p] + 1]
      ensures mod != Some(m) ==> Sprocs() == old(Sprocs()) && suspended == old(suspended)
    {
      if mod == Some(m) {
        ghost var fs := Funs();
        sprocs := Append(sprocs, spIx, p);
        spIx := spIx + 1;
        suspended := suspended[p := suspended[p] + 1];
        assert funs[..feCount] == fs;
      }
    }

    /** Resumes the recorded processes that are alive, and forgets them. */
    method FinalizePurge()
      requires Valid() && mod.Some? && forall p :: p in suspended ==> suspended[p] >= multiset(Sprocs())[p]
      modifies this
      ensures Valid() && mod.None? && Funs() == [] && Sprocs() == []
      ensures suspended.Keys == old(suspended).Keys
      ensures forall p :: p in suspended ==> suspended[p] + multiset(old(Sprocs()))[p] == old(suspended)[p]
      ensures (funs == old(funs) || fresh(funs)) && (sprocs == old(sprocs) || fresh(sprocs))
    {
      mod := None;
      ResumeAll();
      if sprocs.Length != DEF_SIZE {
        sprocs := new Pid[DEF_SIZE];
      }
      spIx := 0;
      if funs.Length != DEF_SIZE {
        funs := new Fun[DEF_SIZE];
      }
      feCount := 0;
    }

    method ResumeAll()
      requires Valid() && forall p :: p in suspended ==> suspended[p] >= multiset(Sprocs())[p]
      modifies this`suspended
      ensures suspended.Keys == old(suspended).Keys
      ensures forall p :: p in suspended ==> suspended[p] + multiset(old(Sprocs()))[p] == old(suspended)[p]
    {
      var ix := 0;
      ghost var ps, was := Sprocs(), suspended;
      while ix < spIx
        invariant ix <= spIx && suspended.Keys == was.Keys && Sprocs() == ps
        invariant forall p :: p in suspended ==> suspended[p] + multiset(ps[..ix])[p] == was[p]
      {
        var p := sprocs[ix];
        PrefixCount(ps, ix);
        if p in suspended {
          suspended := suspended[p := suspended[p] - 1];
        }
        ix := ix + 1;
      }
      assert ps[..ix] == ps;
    }
  }

  lemma PrefixCount(ps: seq<Pid>, i: nat)
    requires i < |ps|
    ensures multiset(ps[..i + 1]) == multiset(ps[..i]) + multiset{ps[i]}
    ensures forall p :: multiset(ps[..i + 1])[p] <= multiset(ps)[p]
  {
    assert ps[..i + 1] == ps[..i] + [ps[i]];
    assert ps == ps[..i + 1] + ps[i + 1..];
  }
}
