/** The drainer's own wait: it never outlasts the work it waits for. */
module InboxDrain {
  import opened Inbox
  import opened InboxInvariant
  import opened InboxSteps
  import opened InboxHistory
  import opened InboxTheorems

  /** The pass has announced its idle mark, or ends without one. */
  predicate Announced(l: Loop) {
    l.LoadAccept? || l.LoadDispatch? || l.MarkExited? || l.BumpExit? || l.Ended? ||
    l.ConsumeWake? || l.CheckWake? || l.CheckStop? || l.Parked?
  }

  /** The loop announces an idle mark before it can sleep for good: it has yet to, the flag
      will turn it, or a dispatch past its accept still owes the flag. */
  predicate MarkDue(s: State) {
    !Announced(s.c.loop) || s.m.wake || exists t | t in s.c.disp :: !s.c.disp[t].Accepting?
  }

  /** What a look has found so far that keeps the drainer waiting, while no mark has been
      announced since it loaded the epoch. */
  predicate Justified(s: State, d: Drainer) {
    match d
    case ReadTail(e) => e <= s.m.epoch
    case ReadPhase(e, atStub, _) => e <= s.m.epoch && (e == s.m.epoch && !atStub ==> MarkDue(s))
    case ReadAccept(e, atStub, working, _) => e <= s.m.epoch && (e == s.m.epoch && (!atStub || working) ==> MarkDue(s))
    case ReadDispatch(e, atStub, working, accepted, _) =>
      e <= s.m.epoch && (e == s.m.epoch && (!atStub || working || accepted != s.m.dispatchCount) ==> MarkDue(s))
    case WaitEpoch(e) => e <= s.m.epoch && (e == s.m.epoch ==> MarkDue(s))
    case _ => true
  }

  /** While no stop stands: an announced mark stands, nobody is refused, and every drainer's
      wait is justified. */
  ghost predicate Waits(s: State) {
    !s.m.stop ==>
      && PhaseStands(s)
      && (forall t | t in s.c.disp :: !s.c.disp[t].Refusing? && !s.c.disp[t].Withdrawing?)
      && (forall t {:trigger s.c.drains[t]} | t in s.c.drains :: Justified(s, s.c.drains[t]))
  }

  lemma DueStays(s: State, a: Action)
    requires Inv(s) && Waits(s) && Enabled(s, a) && !Step(s, a).m.stop && MarkDue(s)
    ensures Step(s, a).m.epoch == s.m.epoch ==> MarkDue(Step(s, a))
  {
    match a
    case Dispatch(t) => DispatchEffect(s, t); DueStaysDispatch(s, t);
    case LoopStep => DueStaysLoop(s);
    case _ => OthersStay(s, a);
  }

  lemma OthersStay(s: State, a: Action)
    requires Enabled(s, a) && a != LoopStep && !a.Dispatch?
    ensures var r := Step(s, a);
            && r.c.loop == s.c.loop && (s.m.wake ==> r.m.wake) && r.m.epoch == s.m.epoch && r.m.phase == s.m.phase
            && r.m.dispatchCount == s.m.dispatchCount
            && (forall t | t in s.c.disp :: t in r.c.disp && r.c.disp[t] == s.c.disp[t])
            && (forall t | t in r.c.disp :: t in s.c.disp || r.c.disp[t].Accepting?)
  {
  }

  lemma DueStaysDispatch(s: State, t: nat)
    requires Waits(s) && t in s.c.disp && !s.m.stop && MarkDue(s)
    requires DispatchFrame(s, DispatchStep(s, t), t) && DispatchMoves(s, DispatchStep(s, t), t)
    requires DispatchCounts(s, DispatchStep(s, t), t)
    ensures MarkDue(DispatchStep(s, t))
  {
    var r := DispatchStep(s, t);
    if t in r.c.disp {
      assert !r.c.disp[t].Accepting?;
    }
  }

  lemma DueStaysLoop(s: State)
    requires Inv(s) && !s.m.stop && MarkDue(s)
    ensures LoopStepOf(s).m.epoch == s.m.epoch ==> MarkDue(LoopStepOf(s))
  {
    LoopEffect(s);
  }

  /** The one read of a look: a look that finds work finds a mark due. */
  lemma LookIsJustified(s: State, d: Drainer)
    requires Inv(s) && Waits(s) && !s.m.stop && Justified(s, d)
    ensures Justified(s, DrainNext(s, d))
  {
    if d.ReadTail? && s.m.tail != Stub && Announced(s.c.loop) {
      if WakeOwers(s) != {} {
        var t :| t in WakeOwers(s);
        assert !s.c.disp[t].Accepting?;
      }
    }
    if d.ReadAccept? && s.m.acceptCount != s.m.dispatchCount {
      assert Window(s) != {};
      var t :| t in Window(s);
      assert !s.c.disp[t].Accepting?;
    }
  }

  lemma KeepJustified(s: State, a: Action, d: Drainer)
    requires Inv(s) && Waits(s) && Enabled(s, a) && !Step(s, a).m.stop && !s.m.stop && Justified(s, d)
    ensures Justified(Step(s, a), d)
  {
    if MarkDue(s) { DueStays(s, a); }
    EpochGrows(s, a);
    match a
    case Dispatch(t) =>
      DispatchEffect(s, t);
      if t in Step(s, a).c.disp && s.c.disp[t].Counting? { assert !Step(s, a).c.disp[t].Accepting?; }
    case LoopStep => LoopEffect(s);
    case _ => OthersStay(s, a);
  }

  lemma EpochGrows(s: State, a: Action)
    requires Enabled(s, a)
    ensures s.m.epoch <= Step(s, a).m.epoch && (s.m.stop ==> Step(s, a).m.stop)
  {
    match a
    case Dispatch(t) => DispatchEffect(s, t);
    case LoopStep => LoopEffect(s);
    case _ =>
  }

  /** From the idle mark to the end of the wait, the phase does not say WORKING. */
  predicate PhaseStands(s: State) {
    Announced(s.c.loop) || s.c.loop.BumpIdle? ==> s.m.phase != Working
  }

  lemma PhaseStaysResting(s: State)
    requires StopRead(s) && PhaseStands(s) && !s.m.stop && Resting(s.c.loop)
    ensures PhaseStands(LoopStepOf(s))
  {
  }

  lemma PhaseStaysWorking(s: State)
    requires !Resting(s.c.loop)
    ensures PhaseStands(LoopStepOf(s))
  {
  }

  lemma WaitsStep(s: State, a: Action)
    requires Inv(s) && Waits(s) && Enabled(s, a)
    ensures Waits(Step(s, a))
  {
    var r := Step(s, a);
    EpochGrows(s, a);
    IdleAtMoves(s, a);
    if !r.m.stop {
      match a {
        case Dispatch(t) => DispatchEffect(s, t);
        case LoopStep =>
          LoopEffect(s);
          if Resting(s.c.loop) { PhaseStaysResting(s); } else { PhaseStaysWorking(s); }
        case _ => OthersStay(s, a);
      }
      forall t | t in r.c.drains ensures Justified(r, r.c.drains[t]) {
        if a == DrainStep(t) {
          LookIsJustified(s, s.c.drains[t]);
          KeepJustified(s, a, r.c.drains[t]);
        } else if t in s.c.drains {
          KeepJustified(s, a, s.c.drains[t]);
        }
      }
    }
  }

  lemma {:induction false} WaitsRun(s: State, run: seq<Action>)
    requires Inv(s) && Waits(s) && Legal(s, run)
    ensures Inv(After(s, run)) && Waits(After(s, run))
    decreases |run|
  {
    if run != [] {
      StepInv(s, run[0]);
      WaitsStep(s, run[0]);
      WaitsRun(Step(s, run[0]), run[1..]);
    }
  }

  lemma InitWaits(mode: WaitMode)
    ensures Waits(Init(mode))
  {
  }

  lemma ReachableWaits(s: State)
    requires Reachable(s)
    ensures Inv(s) && Waits(s)
  {
    var mode, run :| Legal(Init(mode), run) && After(Init(mode), run) == s;
    InitInv(mode);
    InitWaits(mode);
    WaitsRun(Init(mode), run);
  }

  lemma AsleepIsIdle(s: State)
    requires Inv(s) && Waits(s) && s.c.loop.Parked? && !s.m.wake && s.c.disp == map[] && !s.m.stop
    ensures !MarkDue(s)
    ensures InboxIdle(s.m.tail == Stub, s.m.phase == Working, s.m.acceptCount, s.m.dispatchCount)
  {
    assert WakeOwers(s) == {} && Window(s) == {};
  }

  /** No drainer waits for a sleeping loop: with the loop blocked, nobody dispatching and no
      stop owed, every waiting drainer's epoch is stale, so its wait is over, and a fresh
      look finds the inbox idle. */
  lemma NoDrainerSleeps(s: State, t: nat)
    requires Reachable(s) && s.c.loop.Parked? && !Enabled(s, LoopStep)
    requires s.c.disp == map[] && s.c.stoppers == 0
    ensures t in s.c.drains && s.c.drains[t].WaitEpoch? ==> Enabled(s, DrainStep(t))
    ensures InboxIdle(s.m.tail == Stub, s.m.phase == Working, s.m.acceptCount, s.m.dispatchCount)
  {
    ReachableWaits(s);
    BlockedForGoodMeansDone(s);
    AsleepIsIdle(s);
    if t in s.c.drains { assert Justified(s, s.c.drains[t]); }
  }
}
