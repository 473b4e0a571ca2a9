/** Posting to, running and stopping the event loop across threads
    (src/core/event_loop.cpp run, stop, post, processPendingFunctors).

    The protocol is a state machine.  Each step is one access to the shared
    fields by one thread, so a run is any interleaving of any number of posting
    and stopping threads with the owner.  Functors may post, stop or poll again
    while they run.
  */
module EventLoop {

  /** One call of post, identified for the sake of the statement. */
  type Ticket = nat
  type Thread = nat

  /** Where the owner is.
      Idle: run was not entered.  Starting: run found no stop and is about to set
      running.  Testing: at the loop's condition.  Polling: in pollOnce or
      on_tick.  Leaving: about to do the last processPendingFunctors.  Draining:
      in it.  Returned: run has returned. */
  datatype Phase = Idle | Starting | Testing | Polling | Leaving | Draining | Returned

  /** How far a thread is in stop(): the queue is closed, and then the request is set too. */
  datatype Stopping = QueueClosed | StopRequested

  datatype Loop = Loop(
    closed: bool, stopRequested: bool, running: bool,
    pending: seq<Ticket>,           // pending_functors_
    batches: seq<seq<Ticket>>,      // swapped out and not yet run, innermost call last
    phase: Phase,
    stoppers: map<Thread, Stopping>,
    accepted: set<Ticket>, refused: set<Ticket>, executed: seq<Ticket>,
    order: seq<Ticket>,             // the accepted ones, in the order of their posts
    polls: nat)                     // how many rounds of the loop were begun

  const INIT: Loop := Loop(false, false, false, [], [], Idle, map[], {}, {}, [], [], 0)

  datatype Step =
    | Post(ticket: Ticket)
    | CloseQueue(thread: Thread) | RequestStop(thread: Thread) | ClearRunning(thread: Thread)
    | Enter | SetRunning | BeginRound | EndRound | Leave
    | LastSwap | Return
    | Swap | RunNext | EndBatch

  /** The owner is executing callbacks. */
  predicate InCallbacks(s: Loop) {
    s.phase.Polling? || s.phase.Draining?
  }

  predicate Enabled(s: Loop, e: Step) {
    match e
    case Post(t) => t !in s.accepted && t !in s.refused
    case CloseQueue(w) => w !in s.stoppers
    case RequestStop(w) => w in s.stoppers && s.stoppers[w] == QueueClosed
    case ClearRunning(w) => w in s.stoppers && s.stoppers[w] == StopRequested
    case Enter => s.phase.Idle? || s.phase.Returned?
    case SetRunning => s.phase.Starting?
    case BeginRound => s.phase.Testing? && s.running && !s.stopRequested
    case EndRound => s.phase.Polling? && s.batches == []
    case Leave => s.phase.Testing? && !(s.running && !s.stopRequested)
    case LastSwap => s.phase.Leaving?
    case Return => s.phase.Draining? && s.batches == []
    case Swap => InCallbacks(s)
    case RunNext => InCallbacks(s) && s.batches != [] && s.batches[|s.batches| - 1] != []
    case EndBatch => InCallbacks(s) && s.batches != [] && s.batches[|s.batches| - 1] == []
  }

  function Apply(s: Loop, e: Step): Loop
    requires Enabled(s, e)
  {
    match e
    case Post(t) =>
      if s.closed then s.(refused := s.refused + {t})
      else s.(pending := s.pending + [t], accepted := s.accepted + {t}, order := s.order + [t])
    case CloseQueue(w) => s.(closed := true, stoppers := s.stoppers[w := QueueClosed])
    case RequestStop(w) => s.(stopRequested := true, stoppers := s.stoppers[w := StopRequested])
    case ClearRunning(w) => s.(running := false, stoppers := s.stoppers - {w})
    case Enter => s.(phase := if s.stopRequested then Leaving else Starting)
    case SetRunning => s.(running := true, phase := Testing)
    case BeginRound => s.(phase := Polling, polls := s.polls + 1)
    case EndRound => s.(phase := Testing)
    case Leave => s.(phase := Leaving)
    case LastSwap => s.(batches := [s.pending], pending := [], phase := Draining)
    case Return => s.(phase := Returned)
    case Swap => s.(batches := s.batches + [s.pending], pending := [])
    case RunNext =>
      var n := |s.batches| - 1;
      s.(executed := s.executed + [s.batches[n][0]], batches := s.batches[n := s.batches[n][1..]])
    case EndBatch => s.(batches := s.batches[..|s.batches| - 1])
  }

  // ---- What every step keeps ----------------------------------------------------------------

  ghost function InBatches(batches: seq<seq<Ticket>>): multiset<Ticket> {
    if batches == [] then multiset{} else InBatches(batches[..|batches| - 1]) + multiset(batches[|batches| - 1])
  }

  /** Every accepted functor is exactly one of: executed, in a batch, pending. */
  ghost predicate Conserved(s: Loop) {
    multiset(s.executed) + InBatches(s.batches) + multiset(s.pending) == multiset(s.accepted)
  }

  ghost predicate Inv(s: Loop) {
    Conserved(s) && s.accepted !! s.refused && StopsInOrder(s) && PhasesFit(s)
  }

  /** What a stopping thread sets, it sets in this order. */
  ghost predicate StopsInOrder(s: Loop) {
    && (s.stopRequested ==> s.closed)
    && (s.refused != {} ==> s.closed)
    && (forall w :: w in s.stoppers ==> s.closed && (s.stoppers[w] == StopRequested ==> s.stopRequested))
  }

  ghost predicate PhasesFit(s: Loop) {
    && (s.phase in {Testing, Polling} && !s.running ==> s.stopRequested)
    && (s.phase in {Leaving, Draining, Returned} ==> s.stopRequested)
    && (s.phase in {Draining, Returned} ==> s.pending == [])
    && (!InCallbacks(s) ==> s.batches == [])
  }

  lemma BatchAdded(batches: seq<seq<Ticket>>, b: seq<Ticket>)
    ensures InBatches(batches + [b]) == InBatches(batches) + multiset(b)
  {
    assert (batches + [b])[..|batches|] == batches;
  }

  lemma FrontTaken(batches: seq<seq<Ticket>>)
    requires batches != [] && batches[|batches| - 1] != []
    ensures var n := |batches| - 1;
            InBatches(batches) == InBatches(batches[n := batches[n][1..]]) + multiset{batches[n][0]}
  {
    var n := |batches| - 1;
    var after := batches[n := batches[n][1..]];
    assert after[..n] == batches[..n];
    assert batches[n] == [batches[n][0]] + batches[n][1..];
  }

  lemma EmptyBatchDropped(batches: seq<seq<Ticket>>)
    requires batches != [] && batches[|batches| - 1] == []
    ensures InBatches(batches[..|batches| - 1]) == InBatches(batches)
  {
  }

  /** Steps that move no functor. */
  predicate MovesNone(e: Step) {
    !e.Post? && !e.LastSwap? && !e.Swap? && !e.RunNext? && !e.EndBatch?
  }

  lemma NoneMoved(s: Loop, e: Step)
    requires Enabled(s, e) && MovesNone(e)
    ensures var t := Apply(s, e);
            && t.pending == s.pending && t.batches == s.batches && t.executed == s.executed
            && t.accepted == s.accepted && t.order == s.order
  {
  }

  lemma StepConserves(s: Loop, e: Step)
    requires Conserved(s) && PhasesFit(s) && Enabled(s, e)
    ensures Conserved(Apply(s, e))
  {
    hide InBatches;
    if MovesNone(e) {
      NoneMoved(s, e);
      hide Apply;
      assert Conserved(Apply(s, e));
    } else if e.Post? {
      PostConserves(s, e);
    } else if e.LastSwap? {
      BatchAdded([], s.pending);
      assert [] + [s.pending] == [s.pending];
    } else if e.Swap? {
      BatchAdded(s.batches, s.pending);
    } else if e.RunNext? {
      FrontTaken(s.batches);
    } else {
      EmptyBatchDropped(s.batches);
    }
  }

  lemma PostConserves(s: Loop, e: Step)
    requires Conserved(s) && Enabled(s, e) && e.Post?
    ensures Conserved(Apply(s, e))
  {
    hide InBatches;
    assert multiset(s.accepted + {e.ticket}) == multiset(s.accepted) + multiset{e.ticket};
    assert multiset(s.pending + [e.ticket]) == multiset(s.pending) + multiset{e.ticket};
  }

  lemma StepKeepsOrder(s: Loop, e: Step)
    requires StopsInOrder(s) && Enabled(s, e)
    ensures StopsInOrder(Apply(s, e))
  {
  }

  lemma StepKeepsPhases(s: Loop, e: Step)
    requires StopsInOrder(s) && PhasesFit(s) && Enabled(s, e)
    ensures PhasesFit(Apply(s, e))
  {
  }

  /** Requests persist, a closed queue accepts nothing, and what ran has run. */
  lemma StepMovesOn(s: Loop, e: Step)
    requires Enabled(s, e)
    ensures var t := Apply(s, e);
            && (s.stopRequested ==> t.stopRequested && t.polls == s.polls)
            && (s.closed ==> t.closed && t.accepted == s.accepted)
            && s.executed <= t.executed
            && (s.accepted !! s.refused ==> t.accepted !! t.refused)
  {
  }

  lemma StepKeepsInv(s: Loop, e: Step)
    requires Inv(s) && Enabled(s, e)
    ensures Inv(Apply(s, e))
  {
    hide Apply;
    hide Enabled;
    hide Conserved;
    hide PhasesFit;
    hide StopsInOrder;
    StepConserves(s, e);
    StepKeepsOrder(s, e);
    StepKeepsPhases(s, e);
    StepMovesOn(s, e);
  }

  // ---- Whole runs -------------------------------------------------------------------------------

  predicate Feasible(s: Loop, steps: seq<Step>)
    decreases |steps|
  {
    steps == [] || (Enabled(s, steps[0]) && Feasible(Apply(s, steps[0]), steps[1..]))
  }

  function After(s: Loop, steps: seq<Step>): Loop
    requires Feasible(s, steps)
    decreases |steps|
  {
    if steps == [] then s else After(Apply(s, steps[0]), steps[1..])
  }

  lemma {:induction false} RunKeepsInv(s: Loop, steps: seq<Step>)
    requires Inv(s) && Feasible(s, steps)
    ensures Inv(After(s, steps))
    ensures s.stopRequested ==> After(s, steps).stopRequested && After(s, steps).polls == s.polls
    ensures s.closed ==> After(s, steps).closed && After(s, steps).accepted == s.accepted
    ensures s.executed <= After(s, steps).executed
    decreases |steps|
  {
    hide Inv;
    hide Apply;
    if steps != [] {
      StepKeepsInv(s, steps[0]);
      StepMovesOn(s, steps[0]);
      RunKeepsInv(Apply(s, steps[0]), steps[1..]);
    }
  }

  lemma InitInv()
    ensures Inv(INIT)
  {
  }

  /** Whatever the interleaving: when run has returned, every functor whose post
      returned true has been executed exactly once, and none other. */
  lemma ExactlyOnce(steps: seq<Step>)
    requires Feasible(INIT, steps) && After(INIT, steps).phase.Returned?
    ensures var s := After(INIT, steps);
            multiset(s.executed) == multiset(s.accepted) && s.pending == [] && s.stopRequested && s.closed
  {
    InitInv();
    RunKeepsInv(INIT, steps);
  }

  /** At any time: nothing runs twice, and nothing runs whose post returned false. */
  lemma NeverTwiceNorRefused(steps: seq<Step>, t: Ticket)
    requires Feasible(INIT, steps)
    ensures var s := After(INIT, steps);
            multiset(s.executed)[t] <= 1 && (t in s.refused ==> t !in s.executed)
  {
    InitInv();
    RunKeepsInv(INIT, steps);
    var s := After(INIT, steps);
    assert multiset(s.accepted)[t] <= 1;
    assert multiset(s.executed)[t] <= multiset(s.accepted)[t];
    if t in s.executed { assert multiset(s.executed)[t] > 0; }
  }

  /** A stop is never lost, not even one that arrives while run is starting: once
      it is requested no further round of the loop begins, and the loop's
      condition only lets the owner leave. */
  lemma StopIsNotLost(before: seq<Step>, after: seq<Step>)
    requires Feasible(INIT, before) && After(INIT, before).stopRequested && Feasible(After(INIT, before), after)
    ensures var s := After(After(INIT, before), after);
            && s.stopRequested && s.polls == After(INIT, before).polls
            && !Enabled(s, BeginRound)
            && (s.phase.Testing? ==> Enabled(s, Leave))
  {
    InitInv();
    RunKeepsInv(INIT, before);
    RunKeepsInv(After(INIT, before), after);
  }

  /** The owner can always go on: some step of its own is enabled until it has returned. */
  lemma OwnerCanGoOn(s: Loop)
    requires Inv(s) && !s.phase.Returned?
    ensures exists e :: Enabled(s, e) &&
              e in {Enter, SetRunning, BeginRound, EndRound, Leave, LastSwap, Return, RunNext, EndBatch}
  {
    var e :=
      match s.phase
      case Idle => Enter
      case Starting => SetRunning
      case Testing => if s.running && !s.stopRequested then BeginRound else Leave
      case Polling => if s.batches == [] then EndRound
                       else if s.batches[|s.batches| - 1] == [] then EndBatch else RunNext
      case Leaving => LastSwap
      case Draining => if s.batches == [] then Return
                       else if s.batches[|s.batches| - 1] == [] then EndBatch else RunNext
      case Returned => Enter;
    assert Enabled(s, e);
  }

  // ---- Which posts are accepted --------------------------------------------------------------------

  /** Until somebody begins to stop the loop every post is accepted; from then on
      none is. */
  lemma {:induction false} AcceptedUntilClosed(s: Loop, steps: seq<Step>)
    requires Feasible(s, steps)
    ensures s.closed ==> After(s, steps).accepted == s.accepted
    ensures !s.closed && (forall e :: e in steps ==> !e.CloseQueue?) ==>
              && !After(s, steps).closed && After(s, steps).refused == s.refused
              && forall e :: e in steps && e.Post? ==> e.ticket in After(s, steps).accepted
    decreases |steps|
  {
    if steps != [] {
      AcceptedUntilClosed(Apply(s, steps[0]), steps[1..]);
      AcceptedStay(Apply(s, steps[0]), steps[1..]);
      assert forall e :: e in steps ==> e == steps[0] || e in steps[1..];
    }
  }

  lemma {:induction false} AcceptedStay(s: Loop, steps: seq<Step>)
    requires Feasible(s, steps)
    ensures s.accepted <= After(s, steps).accepted && s.order <= After(s, steps).order
    ensures s.executed <= After(s, steps).executed
    decreases |steps|
  {
    if steps != [] { AcceptedStay(Apply(s, steps[0]), steps[1..]); }
  }

  // ---- In which order functors run -------------------------------------------------------------------

  ghost function Flat(batches: seq<seq<Ticket>>): seq<Ticket> {
    if batches == [] then [] else Flat(batches[..|batches| - 1]) + batches[|batches| - 1]
  }

  /** A functor runs in a poll that another functor began, while that one's own
      batch has something left. */
  predicate Overtakes(s: Loop, e: Step) {
    e.RunNext? && exists j :: 0 <= j < |s.batches| - 1 && s.batches[j] != []
  }

  predicate NoneOvertakes(s: Loop, steps: seq<Step>)
    requires Feasible(s, steps)
    decreases |steps|
  {
    steps == [] || (!Overtakes(s, steps[0]) && NoneOvertakes(Apply(s, steps[0]), steps[1..]))
  }

  /** The order lists every accepted ticket once. */
  ghost predicate ListedOnce(s: Loop) {
    && (forall i, j :: 0 <= i < j < |s.order| ==> s.order[i] != s.order[j])
    && (forall t :: t in s.order <==> t in s.accepted)
  }

  /** What ran, what is swapped out and what is pending is the order of the posts. */
  ghost predicate InOrder(s: Loop) {
    s.executed + Flat(s.batches) + s.pending == s.order && ListedOnce(s)
  }

  lemma FlatAdded(batches: seq<seq<Ticket>>, b: seq<Ticket>)
    ensures Flat(batches + [b]) == Flat(batches) + b
  {
    assert (batches + [b])[..|batches|] == batches;
  }

  lemma {:induction false} FlatEmpty(batches: seq<seq<Ticket>>)
    ensures Flat(batches) == [] <==> forall j :: 0 <= j < |batches| ==> batches[j] == []
  {
    if batches != [] { FlatEmpty(batches[..|batches| - 1]); }
  }

  lemma StepListsOnce(s: Loop, e: Step)
    requires ListedOnce(s) && Enabled(s, e)
    ensures ListedOnce(Apply(s, e))
  {
  }

  lemma HeadTaken(s: Loop)
    requires Enabled(s, RunNext) && !Overtakes(s, RunNext)
    ensures var t := Apply(s, RunNext);
            t.executed + Flat(t.batches) == s.executed + Flat(s.batches)
  {
    var n := |s.batches| - 1;
    var outer, last, rest := s.batches[..n], s.batches[n], s.batches[n][1..];
    var after := s.batches[n := rest];
    FlatEmpty(outer);
    assert after[..n] == outer;
    assert Flat(s.batches) == last && Flat(after) == rest;
    assert last == [last[0]] + rest;
    assert s.executed + ([last[0]] + rest) == (s.executed + [last[0]]) + rest;
  }

  /** Without overtaking, each step keeps the order. */
  lemma StepInOrder(s: Loop, e: Step)
    requires InOrder(s) && PhasesFit(s) && Enabled(s, e) && !Overtakes(s, e)
    ensures InOrder(Apply(s, e))
  {
    hide PhasesFit;
    hide ListedOnce;
    hide Flat;
    StepListsOnce(s, e);
    if MovesNone(e) {
      NoneMoved(s, e);
      hide Apply;
      assert InOrder(Apply(s, e));
    } else if e.Post? {
      assert s.executed + Flat(s.batches) + (s.pending + [e.ticket]) == s.order + [e.ticket];
    } else if e.LastSwap? {
      assert s.batches == [] by { NoBatches(s); }
      MovedToBatch(s.executed, [], s.pending);
      assert [] + [s.pending] == [s.pending];
    } else if e.Swap? {
      MovedToBatch(s.executed, s.batches, s.pending);
    } else if e.RunNext? {
      HeadTaken(s);
    } else {
      FlatDropped(s.batches);
    }
  }

  lemma FlatDropped(batches: seq<seq<Ticket>>)
    requires batches != [] && batches[|batches| - 1] == []
    ensures Flat(batches[..|batches| - 1]) == Flat(batches)
  {
  }

  lemma MovedToBatch(executed: seq<Ticket>, batches: seq<seq<Ticket>>, pending: seq<Ticket>)
    ensures executed + Flat(batches + [pending]) + [] == executed + Flat(batches) + pending
  {
    FlatAdded(batches, pending);
  }

  lemma NoBatches(s: Loop)
    requires PhasesFit(s) && s.phase.Leaving?
    ensures s.batches == []
  {
  }

  /** With overtaking, what ran is out of order for good. */
  lemma OvertakingShows(s: Loop, e: Step)
    requires InOrder(s) && Enabled(s, e) && Overtakes(s, e)
    ensures var t := Apply(s, e);
            |s.executed| < |t.executed| && |s.executed| < |t.order| && t.executed[|s.executed|] != t.order[|s.executed|]
  {
    var n, k := |s.batches| - 1, |s.executed|;
    var outer, last := Flat(s.batches[..n]), s.batches[n];
    FlatEmpty(s.batches[..n]);
    var j :| 0 <= j < n && s.batches[j] != [];
    assert s.batches[..n][j] != [];
    assert s.order == s.executed + (outer + last) + s.pending;
    assert s.order[k] == outer[0] && s.order[k + |outer|] == last[0];
  }

  /** Exactly the runs in which nothing was overtaken execute functors in the order
      in which their posts were accepted. */
  lemma {:induction false} InOrderIff(s: Loop, steps: seq<Step>)
    requires Inv(s) && InOrder(s) && Feasible(s, steps)
    ensures After(s, steps).executed <= After(s, steps).order <==> NoneOvertakes(s, steps)
    ensures NoneOvertakes(s, steps) ==> InOrder(After(s, steps))
    decreases |steps|
  {
    hide Inv;
    if steps != [] {
      var e, t := steps[0], Apply(s, steps[0]);
      assert PhasesFit(s) by { InvPhases(s); }
      StepKeepsInv(s, e);
      if Overtakes(s, e) {
        OvertakingShows(s, e);
        AcceptedStay(t, steps[1..]);
        var u, k := After(t, steps[1..]), |s.executed|;
        assert u.executed[k] == t.executed[k] && u.order[k] == t.order[k];
      } else {
        StepInOrder(s, e);
        hide InOrder;
        hide Apply;
        InOrderIff(t, steps[1..]);
      }
    } else {
      assert s.order == s.executed + (Flat(s.batches) + s.pending);
    }
  }

  lemma InvPhases(s: Loop)
    requires Inv(s)
    ensures PhasesFit(s)
  {
  }

  /** From the start, in any interleaving; and once run has returned, all of them. */
  lemma RunInOrderIff(steps: seq<Step>)
    requires Feasible(INIT, steps)
    ensures var s := After(INIT, steps);
            && (s.executed <= s.order <==> NoneOvertakes(INIT, steps))
            && (NoneOvertakes(INIT, steps) && s.phase.Returned? ==> s.executed == s.order)
  {
    InitInv();
    RunKeepsInv(INIT, steps);
    InOrderIff(INIT, steps);
    var s := After(INIT, steps);
    assert s.executed + [] + [] == s.executed;
  }

  /** Overtaking happens: a functor that polls again lets later posts run before the
      rest of its own batch. */
  lemma OvertakingExists()
    ensures var steps := [Enter, SetRunning, BeginRound, Post(1), Post(2), Swap, RunNext, Post(3), Swap, RunNext];
            Feasible(INIT, steps) && After(INIT, steps).executed == [1, 3] && After(INIT, steps).order == [1, 2, 3]
  {
    var all := [Enter, SetRunning, BeginRound, Post(1), Post(2), Swap, RunNext, Post(3), Swap, RunNext];
    var s3 := Apply(Apply(Apply(INIT, Enter), SetRunning), BeginRound);
    assert all[1..] == [SetRunning, BeginRound, Post(1), Post(2), Swap, RunNext, Post(3), Swap, RunNext];
    assert all[1..][1..] == [BeginRound, Post(1), Post(2), Swap, RunNext, Post(3), Swap, RunNext];
    assert all[1..][1..][1..] == [Post(1), Post(2), Swap, RunNext, Post(3), Swap, RunNext];
    var rest := [Post(1), Post(2), Swap, RunNext, Post(3), Swap, RunNext];
    assert s3 == INIT.(running := true, phase := Polling, polls := 1);
    hide Apply;
    hide Enabled;
    OvertakingSteps(s3);
    assert Feasible(s3, rest);
  }

  lemma OvertakingSteps(s3: Loop)
    requires s3 == INIT.(running := true, phase := Polling, polls := 1)
    ensures var rest := [Post(1), Post(2), Swap, RunNext, Post(3), Swap, RunNext];
            && Feasible(s3, rest) && After(s3, rest).executed == [1, 3] && After(s3, rest).order == [1, 2, 3]
  {
    var s5 := s3.(pending := [1, 2], accepted := {1, 2}, order := [1, 2]);
    var s6 := s5.(pending := [], batches := [[1, 2]]);
    var s7 := s6.(executed := [1], batches := [[2]]);
    var s8 := s7.(pending := [3], accepted := {1, 2, 3}, order := [1, 2, 3]);
    var s9 := s8.(pending := [], batches := [[2], [3]]);
    var s10 := s9.(executed := [1, 3], batches := [[2], []]);
    assert Apply(Apply(s3, Post(1)), Post(2)) == s5;
    assert Apply(s7, Post(3)) == s8;
    assert Apply(s5, Swap) == s6 && Apply(s8, Swap) == s9;
    FirstRun(s6);
    SecondRun(s9);
    LaterSteps(s3, s5, s6, s7, s8, s9, s10);
  }

  lemma FirstRun(s: Loop)
    requires s.phase.Polling? && s.batches == [[1, 2]] && s.executed == []
    ensures Enabled(s, RunNext) && Apply(s, RunNext) == s.(executed := [1], batches := [[2]])
  {
    var head: seq<Ticket> := [1, 2];
    assert s.batches[0] == head && head[1..] == [2];
  }

  lemma SecondRun(s: Loop)
    requires s.phase.Polling? && s.batches == [[2], [3]] && s.executed == [1]
    ensures Enabled(s, RunNext) && Apply(s, RunNext) == s.(executed := [1, 3], batches := [[2], []])
  {
    var head: seq<Ticket> := [3];
    assert s.batches[1] == head && head[1..] == [];
  }

  lemma LaterSteps(s3: Loop, s5: Loop, s6: Loop, s7: Loop, s8: Loop, s9: Loop, s10: Loop)
    requires Enabled(s3, Post(1)) && Enabled(Apply(s3, Post(1)), Post(2)) && s5 == Apply(Apply(s3, Post(1)), Post(2))
    requires Enabled(s5, Swap) && s6 == Apply(s5, Swap) && Enabled(s6, RunNext) && s7 == Apply(s6, RunNext)
    requires Enabled(s7, Post(3)) && s8 == Apply(s7, Post(3)) && Enabled(s8, Swap) && s9 == Apply(s8, Swap)
    requires Enabled(s9, RunNext) && s10 == Apply(s9, RunNext)
    ensures var r := [Post(1), Post(2), Swap, RunNext, Post(3), Swap, RunNext];
            Feasible(s3, r) && After(s3, r) == s10
  {
    hide Apply;
    hide Enabled;
    var r := [Post(1), Post(2), Swap, RunNext, Post(3), Swap, RunNext];
    var r1, r2, r3 := r[1..], r[1..][1..], r[1..][1..][1..];
    assert r1 == [Post(2), Swap, RunNext, Post(3), Swap, RunNext];
    assert r2 == [Swap, RunNext, Post(3), Swap, RunNext];
    assert r3 == [RunNext, Post(3), Swap, RunNext];
    assert r3[1..] == [Post(3), Swap, RunNext];
    assert r3[1..][1..] == [Swap, RunNext];
    assert r3[1..][1..][1..] == [RunNext];
    assert r3[1..][1..][1..][1..] == [];
    assert Feasible(s10, []) && After(s10, []) == s10;
    assert Feasible(s9, [RunNext]) && After(s9, [RunNext]) == s10;
    assert Feasible(s8, [Swap, RunNext]) && After(s8, [Swap, RunNext]) == s10;
    assert Feasible(s7, [Post(3), Swap, RunNext]) && After(s7, [Post(3), Swap, RunNext]) == s10;
    assert Feasible(s6, r3) && After(s6, r3) == s10;
    assert Feasible(s5, r2) && After(s5, r2) == s10;
  }
}
