module BreakpointReaders {
  // The schedulers that run into a breakpoint while a request changes it (beam_bp.c, with
  // the stages of debug_bp_finisher in beam_debug.c).  Each of them sees the active half it
  // read last, which may be the old one until it passes the code barrier that is
  // issued before every stage; and it may be walking entries that are being unlinked,
  // which are deallocated only after one more barrier.

  import opened Breakpoints

  datatype Readers = Readers(
    bp: State,
    view: seq<nat>,               // the half each scheduler takes for the active one
    walking: seq<set<Session>>,   // the entries each scheduler may be looking at
    passed: set<nat>,             // the schedulers that have passed the current barrier
    limbo: set<Session>,          // entries unlinked and not deallocated
    freeing: bool)                // the last stage of a request is to come

  datatype Step =
    | Request(e: Event)           // a step of the request, the stages included
    | See(s: nat)
    | Enter(s: nat)               // runs into the breakpoint instruction
    | Leave(s: nat)
    | Pass(s: nat)                // executes the code barrier
    | Free                        // erts_free_breakpoints

  predicate Shape(r: Readers) {
    && |r.view| == |r.walking|
    && forall s :: 0 <= s < |r.view| ==> r.view[s] < 2
  }

  predicate Barrier(r: Readers) {
    forall s :: 0 <= s < |r.view| ==> s in r.passed
  }

  function SessionsOf(gs: seq<Bp>): set<Session> {
    set g | g in gs :: g.session
  }

  predicate Consolidates(st: State, e: Event) {
    e.Stage? && (st.phase.CommittedOn? || st.phase.Uninstalled?)
  }

  predicate CanStep(r: Readers, t: Step) {
    && Shape(r)
    && match t
       case Request(e) => Enabled(r.bp, e) && !r.freeing && (e.Stage? ==> Barrier(r))
       case See(s) => s < |r.view|
       case Enter(s) => s < |r.view| && r.walking[s] == {}
       case Leave(s) => s < |r.view|
       case Pass(s) => s < |r.view| && r.walking[s] == {}
       case Free => r.freeing && Barrier(r)
  }

  ghost function Take(r: Readers, t: Step): Readers
    requires CanStep(r, t) && Inv(r.bp)
  {
    match t
    case Request(e) =>
      var st' := Next(r.bp, e);
      var gone := if Consolidates(r.bp, e) then SessionsOf(r.bp.hp.gs) - SessionsOf(st'.hp.gs) else {};
      r.(bp := st', passed := {}, limbo := r.limbo + gone, freeing := Consolidates(r.bp, e))
    case See(s) => r.(view := r.view[s := r.bp.active])
    case Enter(s) => r.(walking := r.walking[s := if r.bp.installed then SessionsOf(Linked(r.bp)) else {}])
    case Leave(s) => r.(walking := r.walking[s := {}])
    case Pass(s) => r.(view := r.view[s := r.bp.active], passed := r.passed + {s})
    case Free => r.(limbo := {}, freeing := false, passed := {})
  }

  /** Only between the switch of the halves and the next barrier may a scheduler see the
      old half. */
  predicate Fresh(r: Readers) {
    !r.bp.phase.CommittedOn? && !r.bp.phase.CommittedOff? ==>
      forall s :: 0 <= s < |r.view| ==> r.view[s] == r.bp.active
  }

  predicate PassedFresh(r: Readers)
    requires Shape(r)
  {
    forall s :: s in r.passed && s < |r.view| ==> r.view[s] == r.bp.active && r.walking[s] !! r.limbo
  }

  ghost predicate Safe(r: Readers) {
    && Shape(r) && Inv(r.bp) && Fresh(r) && PassedFresh(r)
    && (!r.freeing ==> r.limbo == {})
    && SessionsOf(Linked(r.bp)) !! r.limbo
    && (r.freeing ==> r.bp.phase.Idle?)
  }

  lemma RequestKeeps(r: Readers, e: Event)
    requires Safe(r) && CanStep(r, Request(e))
    ensures Safe(Take(r, Request(e)))
  {
    StepKeepsInv(r.bp, e);
  }

  lemma StepKeepsSafe(r: Readers, t: Step)
    requires Safe(r) && CanStep(r, t)
    ensures Safe(Take(r, t))
  {
    match t
    case Request(e) => RequestKeeps(r, e);
    case _ =>
  }

  /** What scheduler s finds when it runs into the function. */
  function SeenBy(r: Readers, s: nat): seq<(Session, Half)>
    requires Shape(r) && s < |r.view| && TwoHalves(r.bp.hp.gs)
  {
    if r.bp.installed then View(Linked(r.bp), r.view[s]) else []
  }

  /** A request never writes a half that some scheduler takes for the active one. */
  lemma WritesUnseenHalf(r: Readers, e: Event, s: nat)
    requires Safe(r) && CanStep(r, Request(e)) && s < |r.view| && !IsCommit(r.bp, e)
    ensures r.view[s] == r.bp.active
  {
  }

  /** What a scheduler sees is changed by no step of the request, the switch of the halves
      included: only by its own, from the old breakpoint to the staged one. */
  lemma SeenChangesAtOwnStep(r: Readers, t: Step, s: nat)
    requires Safe(r) && CanStep(r, t) && s < |r.view|
    ensures Safe(Take(r, t))
    ensures SeenBy(Take(r, t), s) ==
      if t == See(s) || t == Pass(s) then Seen(r.bp) else SeenBy(r, s)
  {
    StepKeepsSafe(r, t);
    if t.Request? {
      SeenChangesAtCommit(r.bp, t.e);
      if !IsCommit(r.bp, t.e) {
        WritesUnseenHalf(r, t.e, s);
      }
    }
  }

  /** An entry is deallocated only when no scheduler is looking at it. */
  lemma NotFreedWhileWalked(r: Readers, s: nat)
    requires Safe(r) && CanStep(r, Free) && s < |r.view|
    ensures r.walking[s] !! r.limbo
  {
  }

  /** n schedulers, and no breakpoint. */
  function Start(n: nat): Readers {
    Readers(NONE, seq(n, _ => 0), seq(n, _ => {}), {}, {}, false)
  }

  ghost predicate IsReaderRun(r: Readers, ts: seq<Step>, r': Readers)
    decreases |ts|
  {
    if ts == [] then r' == r
    else Safe(r) && CanStep(r, ts[0]) && IsReaderRun(Take(r, ts[0]), ts[1..], r')
  }

  lemma {:induction false} ReaderRunKeepsSafe(r: Readers, ts: seq<Step>, r': Readers)
    requires Safe(r) && IsReaderRun(r, ts, r')
    ensures Safe(r')
    decreases |ts|
  {
    if ts != [] {
      StepKeepsSafe(r, ts[0]);
      ReaderRunKeepsSafe(Take(r, ts[0]), ts[1..], r');
    }
  }

  /** In every run: a scheduler sees the old half only between a switch and the next
      barrier, and an entry that is to be deallocated is looked at by nobody. */
  lemma ReadersAreSafe(n: nat, ts: seq<Step>, r: Readers, s: nat)
    requires IsReaderRun(Start(n), ts, r) && s < |r.view|
    ensures Safe(r)
    ensures !r.bp.phase.CommittedOn? && !r.bp.phase.CommittedOff? ==> r.view[s] == r.bp.active
    ensures CanStep(r, Free) ==> r.walking[s] !! r.limbo
  {
    assert Linked(NONE) == [];
    ReaderRunKeepsSafe(Start(n), ts, r);
  }
}
