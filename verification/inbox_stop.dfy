/** The end of a context: with the stop standing the loop ends, and what a drain then
    finds. */
module InboxStop {
  import opened Inbox
  import opened InboxInvariant
  import opened InboxSteps
  import opened InboxHistory
  import opened InboxTheorems
  import opened InboxProgress

  // ----- the loop reaches its end -----

  /** The steps left to the loop's end, in a pass that takes nothing. */
  function StopRank(s: State): int {
    match s.c.loop
    case MarkIdle => 26
    case BumpIdle => 25
    case LoadAccept(stopped) => if stopped then 4 else 24
    case LoadDispatch(stopped, accepted) => if stopped && accepted == s.m.dispatchCount then 3 else 23
    case ConsumeWake => 22
    case Parked => if s.m.wake then 20 else 21
    case CheckWake => 19
    case CheckStop => 18
    case LinkStub(_, _) => 17
    case MarkWorking(_) => 16
    case MarkRunning(_) => 15
    case RunItem(_) => 14
    case MarkDone(_) => 13
    case LoadTail => 12
    case LoadNext(_) => 11
    case MarkReanchor => 10
    case ClearStub => 9
    case ExchangeStub => 8
    case LoadStop => 5
    case MarkExited => 2
    case BumpExit => 1
    case Ended => 0
  }

  /** A stop stands and nobody dispatches. */
  ghost predicate Closing(s: State) {
    Lone(s) && s.m.stop
  }

  /** The loop has come nearer to its end. */
  ghost predicate NearerEnd(s: State, r: State) {
    || Owing(r) < Owing(s)
    || (Owing(r) == Owing(s) && Distance(r) < Distance(s))
    || (Owing(r) == Owing(s) && Distance(r) == Distance(s) && StopRank(r) < StopRank(s))
  }

  lemma RestNearsEnd(s: State)
    requires Closing(s) && Resting(s.c.loop) && s.c.loop != Ended
    ensures NearerEnd(s, LoopStepOf(s))
  {
    assert Window(s) == {};
    assert s.m.acceptCount == s.m.dispatchCount;
    WaitNearsEnd(s);
  }

  lemma WaitNearsEnd(s: State)
    requires s.m.stop && Resting(s.c.loop) && s.c.loop != Ended && s.m.acceptCount == s.m.dispatchCount
    ensures NearerEnd(s, LoopStepOf(s))
  {
  }

  lemma RunNearsEnd(s: State)
    requires Closing(s) && (HasCurrent(s.c.loop) || s.c.loop.LoadTail?)
    ensures NearerEnd(s, LoopStepOf(s))
  {
  }

  lemma ReanchorNearsEnd(s: State)
    requires Closing(s) && Reanchoring(s.c.loop)
    ensures NearerEnd(s, LoopStepOf(s))
  {
    if s.c.loop.ExchangeStub? {
      AnchorCloses(s);
      AnchorOwesNothing(s);
    } else {
      ReanchorPasses(s);
    }
  }

  lemma ReanchorPasses(s: State)
    requires Reanchoring(s.c.loop) && !s.c.loop.ExchangeStub?
    ensures NearerEnd(s, LoopStepOf(s))
  {
  }

  lemma PassNearsEnd(s: State, tail: Ptr)
    requires Closing(s) && s.c.loop == LoadNext(tail)
    ensures NearerEnd(s, Decide(s, tail))
  {
    if NextOf(s, s.c.walk) == Null {
      LoneWalk(s);
      EmptyPassNearsEnd(s, tail);
    } else if s.c.walk.Node? {
      TakeNears(s, s.c.walk.id);
      TakingPass(s, tail);
    } else {
      EntryAt(s, s.h.head);
      SentinelNears(s);
      TakingPass(s, tail);
    }
  }

  lemma EmptyPassNearsEnd(s: State, tail: Ptr)
    requires s.c.loop == LoadNext(tail) && NextOf(s, s.c.walk) == Null && s.c.walk == tail
    ensures NearerEnd(s, Decide(s, tail))
  {
  }

  /** A pass that moves the walk leads on to a node or the next tail read. */
  lemma TakingPass(s: State, tail: Ptr)
    requires s.c.loop == LoadNext(tail) && NextOf(s, s.c.walk) != Null && Nearer(s, Decide(s, tail))
    ensures NearerEnd(s, Decide(s, tail))
  {
  }

  lemma NearsEnd(s: State)
    requires Closing(s) && s.c.loop != Ended
    ensures NearerEnd(s, LoopStepOf(s))
  {
    match s.c.loop
    case LoadNext(tail) => PassNearsEnd(s, tail);
    case _ =>
      if Resting(s.c.loop) { RestNearsEnd(s); }
      else if Reanchoring(s.c.loop) { ReanchorNearsEnd(s); }
      else { RunNearsEnd(s); }
  }

  lemma ClosingStep(s: State) returns (a: Action, r: State)
    requires Closing(s) && s.c.loop != Ended
    ensures a == LoopStep || a == StopWake
    ensures Enabled(s, a) && r == Step(s, a) && Closing(r) && NearerEnd(s, r)
  {
    if Enabled(s, LoopStep) {
      a := LoopStep;
      NearsEnd(s);
      LoopEffect(s);
    } else {
      a := StopWake;
    }
    r := Step(s, a);
    StepInv(s, a);
  }

  /** The run ends the loop by the loop's own steps and owed wakes. */
  ghost predicate EndsLoop(s: State, run: seq<Action>) {
    Legal(s, run) && After(s, run).c.loop == Ended && forall a | a in run :: a == LoopStep || a == StopWake
  }

  lemma ThenEnds(s: State, a: Action, r: State, rest: seq<Action>) returns (run: seq<Action>)
    requires Enabled(s, a) && r == Step(s, a) && (a == LoopStep || a == StopWake) && EndsLoop(r, rest)
    ensures EndsLoop(s, run)
  {
    run := StepFirst(s, a, rest);
  }

  /** A requested stop ends the loop: with nobody dispatching, the loop's own steps, and
      the wakes the stop requests still owe, lead from any reachable state to its end. */
  lemma {:induction false} LoopEndsAfterStop(s: State) returns (run: seq<Action>)
    requires Closing(s)
    ensures EndsLoop(s, run)
    decreases Owing(s), Distance(s), StopRank(s)
  {
    if s.c.loop == Ended {
      run := [];
    } else {
      var a, r := ClosingStep(s);
      var rest := LoopEndsAfterStop(r);
      run := ThenEnds(s, a, r, rest);
    }
  }

  // ----- drainers of an ending loop -----

  /** No drainer has loaded an epoch that is still to come, and a loop past its exit mark
      reads EXITED. */
  ghost predicate Epochs(s: State) {
    && (forall t | t in s.c.drains ::
          match s.c.drains[t]
          case ReadTail(e) => e <= s.m.epoch
          case ReadPhase(e, _, _) => e <= s.m.epoch
          case ReadAccept(e, _, _, _) => e <= s.m.epoch
          case ReadDispatch(e, _, _, _, _) => e <= s.m.epoch
          case WaitEpoch(e) => e <= s.m.epoch
          case _ => true)
    && (s.c.loop.BumpExit? || s.c.loop.Ended? ==> s.m.phase == Exited)
  }

  lemma EpochsLoop(s: State)
    requires Epochs(s) && s.c.loop != Ended
    ensures Epochs(LoopStepOf(s))
  {
    LoopEffect(s);
    EpochOfLoop(s);
  }

  lemma EpochOfLoop(s: State)
    ensures s.m.epoch <= LoopStepOf(s).m.epoch
    ensures s.c.loop != Ended && (LoopStepOf(s).c.loop.BumpExit? || LoopStepOf(s).c.loop.Ended?) ==>
              s.c.loop.MarkExited? || s.c.loop.BumpExit?
    ensures s.c.loop.MarkExited? || s.c.loop.BumpExit? ==>
              LoopStepOf(s).m.phase == if s.c.loop.MarkExited? then Exited else s.m.phase
  {
  }

  lemma EpochsStep(s: State, a: Action)
    requires Epochs(s) && Enabled(s, a)
    ensures Epochs(Step(s, a))
  {
    match a
    case Dispatch(t) => EpochsDispatch(s, t);
    case LoopStep => EpochsLoop(s);
    case _ =>
  }

  lemma EpochsDispatch(s: State, t: nat)
    requires t in s.c.disp
    ensures DispatchStep(s, t).c.drains == s.c.drains && DispatchStep(s, t).m.epoch == s.m.epoch
    ensures DispatchStep(s, t).c.loop == s.c.loop && DispatchStep(s, t).m.phase == s.m.phase
  {
  }

  lemma {:induction false} EpochsRun(s: State, run: seq<Action>)
    requires Epochs(s) && Legal(s, run)
    ensures Epochs(After(s, run))
    decreases |run|
  {
    if run != [] {
      EpochsStep(s, run[0]);
      EpochsRun(Step(s, run[0]), run[1..]);
    }
  }

  lemma ReachableEpochs(s: State)
    requires Reachable(s)
    ensures Inv(s) && Epochs(s)
  {
    ReachableInv(s);
    var mode, run :| Legal(Init(mode), run) && After(Init(mode), run) == s;
    EpochsRun(Init(mode), run);
  }

  /** The exit wakes everybody: when the loop bumps the epoch on its way out, no drainer is
      left waiting for it. */
  lemma ExitWakesEveryDrainer(s: State, t: nat)
    requires Reachable(s) && s.c.loop == BumpExit && t in s.c.drains && s.c.drains[t].WaitEpoch?
    ensures Enabled(Step(s, LoopStep), DrainStep(t)) && Step(s, LoopStep).c.loop == Ended
  {
    ReachableEpochs(s);
  }

  lemma EndedStays(s: State, a: Action)
    requires Enabled(s, a) && s.c.loop == Ended
    ensures Step(s, a).c.loop == Ended && Step(s, a).m.epoch == s.m.epoch
  {
    match a
    case Dispatch(t) => EpochsDispatch(s, t);
    case _ =>
  }

  /** Nobody bumps the epoch of an ended loop: a drainer that waits for the standing epoch
      then waits over every run. */
  lemma {:induction false} WaitsForGood(s: State, run: seq<Action>, t: nat)
    requires s.c.loop == Ended && Legal(s, run)
    requires t in s.c.drains && s.c.drains[t] == WaitEpoch(s.m.epoch)
    ensures var r := After(s, run);
            t in r.c.drains && r.c.drains[t] == s.c.drains[t] && !Enabled(r, DrainStep(t)) && !Enabled(r, LeaveDrain(t))
    decreases |run|
  {
    if run != [] {
      EndedStays(s, run[0]);
      if run[0].Dispatch? { EpochsDispatch(s, run[0].t); }
      WaitsForGood(Step(s, run[0]), run[1..], t);
    }
  }

  /** One look of a drainer, when nothing else moves. */
  lemma LookAlone(s: State, t: nat) returns (run: seq<Action>)
    requires t in s.c.drains && s.c.drains[t] == LoadEpoch
    ensures Legal(s, run) && forall a | a in run :: a == DrainStep(t)
    ensures After(s, run) == s.(c := s.c.(drains := s.c.drains[t :=
              if InboxIdle(s.m.tail == Stub, s.m.phase == Working, s.m.acceptCount, s.m.dispatchCount)
              then Returned(|s.h.log|) else WaitEpoch(s.m.epoch)]))
  {
    var a := DrainStep(t);
    var s1 := Step(s, a);
    var s2 := Step(s1, a);
    var s3 := Step(s2, a);
    var s4 := Step(s3, a);
    var s5 := Step(s4, a);
    run := StepFirst(s4, a, []);
    run := StepFirst(s3, a, run);
    run := StepFirst(s2, a, run);
    run := StepFirst(s1, a, run);
    run := StepFirst(s, a, run);
    assert s5.c.drains == s.c.drains[t := s5.c.drains[t]];
  }

  /** What `drain` does once the loop has ended: a look with nothing else moving returns
      where the sentinel is the tail and no dispatch is between its accept and its link
      count or withdrawal; anywhere else the drainer waits for good, whatever runs. */
  lemma DrainAfterTheEndReturnsIff(s: State, t: nat) returns (run: seq<Action>)
    requires Reachable(s) && s.c.loop == Ended && t !in s.c.drains
    ensures Legal(s, [BeginDrain(t)] + run) && forall a | a in run :: a == DrainStep(t)
    ensures var r := After(s, [BeginDrain(t)] + run);
            && t in r.c.drains && r.c.loop == Ended
            && (r.c.drains[t].Returned? <==> s.m.tail == Stub && Window(s) == {})
            && (!r.c.drains[t].Returned? ==> r.c.drains[t] == WaitEpoch(r.m.epoch))
  {
    ReachableEpochs(s);
    var b := Step(s, BeginDrain(t));
    run := LookAlone(b, t);
    assert ([BeginDrain(t)] + run)[1..] == run;
    assert Window(s) == {} <==> |Window(s)| == 0;
  }
}
