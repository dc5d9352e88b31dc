/** What every run of the inbox keeps: the chain, reuse safety, order, the stop, the
    drain and the wake. */
module InboxTheorems {
  import opened Inbox
  import opened InboxInvariant
  import opened InboxSteps
  import opened InboxHistory

  /** Some run of a fresh context ends here. */
  ghost predicate Reachable(s: State) {
    exists mode, run :: Legal(Init(mode), run) && After(Init(mode), run) == s
  }

  lemma ReachableInv(s: State)
    requires Reachable(s)
    ensures Inv(s)
  {
    var mode, run :| Legal(Init(mode), run) && After(Init(mode), run) == s;
    InitInv(mode);
    RunInv(Init(mode), run);
  }

  /** A run of one step more at its front. */
  lemma StepFirst(s: State, a: Action, rest: seq<Action>) returns (run: seq<Action>)
    requires Enabled(s, a) && Legal(Step(s, a), rest)
    ensures run == [a] + rest && Legal(s, run) && After(s, run) == After(Step(s, a), rest)
  {
    run := [a] + rest;
    assert run[1..] == rest;
  }

  // ----- the chain -----

  /** Somebody stands exactly before the store that publishes the link behind k. */
  ghost predicate LinkInFlight(s: State, k: nat)
    requires k + 1 < |s.h.log|
  {
    || s.c.loop == LinkStub(PtrOf(s.h.log[k]), k)
    || exists t | t in s.c.disp :: s.h.log[k + 1].Item? && s.h.log[k + 1].thread == t &&
                                   s.c.disp[t] == Linking(PtrOf(s.h.log[k]), s.h.log[k + 1].id, k)
  }

  /** The exchanged and untaken nodes form one duplicate-free sequence from the walk to
      the tail, linked throughout except where an in-flight link store is owed. */
  lemma ChainIsTheUntakenLog(s: State, i: nat, j: nat)
    requires Reachable(s) && s.h.head <= i < j < |s.h.log|
    ensures s.c.walk == PtrOf(s.h.log[s.h.head]) && s.m.tail == PtrOf(s.h.log[|s.h.log| - 1])
    ensures PtrOf(s.h.log[i]) != PtrOf(s.h.log[j])
    ensures NextOf(s, PtrOf(s.h.log[i])) == PtrOf(s.h.log[i + 1])
            || (NextOf(s, PtrOf(s.h.log[i])) == Null && LinkInFlight(s, i))
    ensures NextOf(s, s.m.tail) == Null
  {
    ReachableInv(s);
    EntryAt(s, i);
    EntryAt(s, j);
    EntryAt(s, |s.h.log| - 1);
  }

  // ----- reuse safety -----

  /** The nodes whose words the next access of a step touches. */
  function Touches(s: State, a: Action): set<nat> {
    match a
    case Dispatch(t) =>
      if t !in s.c.disp then {}
      else (match s.c.disp[t]
            case Refusing(n) => {n}
            case Resetting(n) => {n}
            case Stamping(n) => {n}
            case Clearing(n) => {n}
            case Linking(prev, _, _) => if prev.Node? then {prev.id} else {}
            case _ => {})
    case LoopStep =>
      (match s.c.loop
       case LoadNext(_) => if s.c.walk.Node? then {s.c.walk.id} else {}
       case LinkStub(prev, _) => if prev.Node? then {prev.id} else {}
       case MarkRunning(n) => {n}
       case RunItem(n) => {n}
       case MarkDone(n) => {n}
       case _ => {})
    case _ => {}
  }

  lemma TouchedBusy(s: State, a: Action, n: nat)
    requires Inv(s) && Enabled(s, a) && n in Touches(s, a)
    ensures n in s.m.nodes && s.m.nodes[n].place != Free
  {
    match a
    case Dispatch(t) =>
      assert ThreadOk(s, t);
      if s.c.disp[t].Linking? { EntryAt(s, s.c.disp[t].at); }
    case LoopStep =>
      if s.c.loop.LinkStub? { EntryAt(s, s.c.loop.at); }
      EntryAt(s, s.h.head);
  }

  /** No access of any thread ever touches a destroyed node. */
  lemma AccessesAreLive(s: State, a: Action, n: nat)
    requires Reachable(s) && Enabled(s, a) && n in Touches(s, a)
    ensures n in s.m.nodes
  {
    ReachableInv(s);
    TouchedBusy(s, a, n);
  }

  /** No shared word, and no pointer a thread will follow, leads to the node. */
  ghost predicate Unreferenced(s: State, n: nat) {
    && s.m.tail != Node(n) && s.c.walk != Node(n)
    && (forall k | s.h.head <= k < |s.h.log| :: PtrOf(s.h.log[k]) != Node(n))
    && (forall t | t in s.c.disp && s.c.disp[t].Linking? :: s.c.disp[t].prev != Node(n))
    && (s.c.loop.LinkStub? ==> s.c.loop.prev != Node(n))
    && !RunsNode(s.c.loop, n)
  }

  /** A node its caller reads DONE or STOPPED, and is not itself dispatching, is in
      nobody's reach: reuse and destruction are safe. */
  lemma SettledIsUnreferenced(s: State, n: nat)
    requires Reachable(s) && n in s.m.nodes && !Held(s, n)
    requires s.m.nodes[n].completion == Done || s.m.nodes[n].completion == Stopped
    ensures Unreferenced(s, n)
  {
    ReachableInv(s);
    SettledIsFree(s, n);
    forall k | s.h.head <= k < |s.h.log| ensures PtrOf(s.h.log[k]) != Node(n) { EntryAt(s, k); }
    forall t | t in s.c.disp && s.c.disp[t].Linking? ensures s.c.disp[t].prev != Node(n) {
      assert ThreadOk(s, t);
      EntryAt(s, s.c.disp[t].at);
    }
    if s.c.loop.LinkStub? { EntryAt(s, s.c.loop.at); }
  }

  /** Until its caller dispatches or destroys it, no step of any thread changes a
      settled node's words, and it stays settled. */
  lemma SettledStays(s: State, a: Action, n: nat)
    requires Reachable(s) && Enabled(s, a) && n in s.m.nodes && !Held(s, n)
    requires s.m.nodes[n].completion == Done || s.m.nodes[n].completion == Stopped
    requires a != Destroy(n) && !(a.Begin? && a.n == n)
    ensures n in Step(s, a).m.nodes && Step(s, a).m.nodes[n] == s.m.nodes[n] && !Held(Step(s, a), n)
  {
    ReachableInv(s);
    SettledIsFree(s, n);
    StepInv(s, a);
    var r := Step(s, a);
    if n in Touches(s, a) { TouchedBusy(s, a, n); }
    SameWords(s, a, n);
    forall t | t in r.c.disp ensures !Holds(r.c.disp[t], n) { assert ThreadOk(r, t); }
  }

  lemma SameWords(s: State, a: Action, n: nat)
    requires Inv(s) && Enabled(s, a) && n in s.m.nodes && s.m.nodes[n].place == Free
    requires n !in Touches(s, a) && a != Destroy(n) && !(a.Begin? && a.n == n)
    ensures n in Step(s, a).m.nodes && Step(s, a).m.nodes[n] == s.m.nodes[n]
  {
    match a
    case Dispatch(t) => assert ThreadOk(s, t);
    case LoopStep =>
      EntryAt(s, s.h.head);
    case _ =>
  }

  // ----- order -----

  /** The log positions below this one have executed. */
  function Executed(s: State): int {
    if s.c.loop.MarkWorking? || s.c.loop.MarkRunning? || s.c.loop.RunItem? then s.h.head - 1 else s.h.head
  }

  lemma {:induction false} ItemsByPrefix(log: seq<Entry>, k: nat, t: nat)
    requires k <= |log|
    ensures ItemsBy(log[..k], t) <= ItemsBy(log, t)
    ensures (exists i | k <= i < |log| :: log[i].Item? && log[i].thread == t) ==>
              |ItemsBy(log[..k], t)| < |ItemsBy(log, t)|
    ensures (forall i | k <= i < |log| :: log[i].Anchor?) ==> ItemsBy(log[..k], t) == ItemsBy(log, t)
    decreases |log|
  {
    if k == |log| {
      assert log[..k] == log;
    } else {
      var front := log[..|log| - 1];
      assert front[..k] == log[..k];
      ItemsByPrefix(front, k, t);
    }
  }

  lemma ExecutedNow(s: State)
    requires Inv(s)
    ensures 0 <= Executed(s) <= |s.h.log| && SettledTo(s) <= Executed(s)
    ensures s.h.ran == Items(s.h.log[..Executed(s)])
  {
    var k := Executed(s);
    if k < s.h.head {
      ItemsSnoc(s.h.log[..k], s.h.log[k]);
      assert s.h.log[..s.h.head] == s.h.log[..k] + [s.h.log[k]];
      assert Items(s.h.log[..k]) == Items(s.h.log[..s.h.head])[..|s.h.ran|];
    }
  }

  /** The executed nodes are exactly the exchanged ones up to the loop's position: each
      accepted dispatch runs at most once, and one thread's nodes run in the order of
      its accepted dispatches. */
  lemma ExecutedIsExchangedPrefix(s: State, t: nat)
    requires Reachable(s)
    ensures 0 <= Executed(s) <= |s.h.log|
    ensures s.h.ran == Items(s.h.log[..Executed(s)])
    ensures ItemsBy(s.h.log[..Executed(s)], t) <= CallsBy(s.h.calls, t)
  {
    ReachableInv(s);
    ExecutedNow(s);
    ItemsByPrefix(s.h.log, Executed(s), t);
    assert CallOrderOf(s, t);
  }

  /** A node its dispatch refuses is in no queue, also when it was queued before. */
  lemma RefusedNeverQueued(s: State, t: nat, n: nat)
    requires Reachable(s) && t in s.c.disp && s.c.disp[t] == Refusing(n)
    ensures Unreferenced(s, n)
  {
    ReachableInv(s);
    assert ThreadOk(s, t);
    forall k | s.h.head <= k < |s.h.log| ensures PtrOf(s.h.log[k]) != Node(n) { EntryAt(s, k); }
    forall u | u in s.c.disp && s.c.disp[u].Linking? ensures s.c.disp[u].prev != Node(n) {
      assert ThreadOk(s, u);
      EntryAt(s, s.c.disp[u].at);
    }
    if s.c.loop.LinkStub? { EntryAt(s, s.c.loop.at); }
  }

  // ----- the stop -----

  /** The two counts differ by the dispatches between accept and link count or withdrawal. */
  lemma CountsDifferByTheWindow(s: State)
    requires Reachable(s)
    ensures s.m.acceptCount - s.m.dispatchCount == |Window(s)|
  {
    ReachableInv(s);
  }

  lemma StopStays(s: State, a: Action)
    requires Enabled(s, a) && s.m.stop
    ensures Step(s, a).m.stop && Step(s, a).h.calls == s.h.calls
  {
    match a
    case Dispatch(t) => DispatchEffect(s, t);
    case LoopStep => LoopEffect(s);
    case _ =>
  }

  /** Once the stop stands, no dispatch is ever accepted again. */
  lemma {:induction false} StopClosesTheInbox(s: State, run: seq<Action>)
    requires s.m.stop && Legal(s, run)
    ensures After(s, run).m.stop && After(s, run).h.calls == s.h.calls
    decreases |run|
  {
    if run != [] {
      StopStays(s, run[0]);
      StopClosesTheInbox(Step(s, run[0]), run[1..]);
    }
  }

  /** The store of `requestStop` makes the stop stand: over every run from there on, no
      dispatch is accepted again. */
  lemma RequestStopClosesTheInbox(s: State, run: seq<Action>)
    requires Legal(s, [RequestStop] + run)
    ensures After(s, [RequestStop] + run).m.stop && After(s, [RequestStop] + run).h.calls == s.h.calls
  {
    assert ([RequestStop] + run)[1..] == run;
    StopClosesTheInbox(Step(s, RequestStop), run);
  }

  /** The loop has decided to end. */
  predicate Exiting(l: Loop) {
    l.MarkExited? || l.BumpExit? || l.Ended?
  }

  /** No accepted node is unrun. */
  ghost predicate AllSettled(s: State) {
    forall n | n in s.m.nodes :: s.m.nodes[n].accepted ==>
      s.m.nodes[n].completion == Done || s.m.nodes[n].completion == Stopped
  }

  /** Every accepted dispatch of every thread has run. */
  ghost predicate AllRan(s: State) {
    s.h.head <= |s.h.log| && forall t :: CallsBy(s.h.calls, t) == ItemsBy(s.h.log[..s.h.head], t)
  }

  /** When the loop ends, every accepted dispatch has been linked and none is under way;
      all of them have run, and all their nodes are settled, exactly when the pass that
      ended the loop still stood on the sentinel with the sentinel at the tail. */
  lemma ExitIsCompleteIffEmpty(s: State)
    requires Reachable(s) && Exiting(s.c.loop)
    ensures s.m.stop && LinkOwers(s) == {}
    ensures AllRan(s) <==> (s.c.walk == Stub && s.m.tail == Stub)
    ensures AllSettled(s) <==> (s.c.walk == Stub && s.m.tail == Stub)
  {
    ReachableInv(s);
    var last := |s.h.log| - 1;
    EntryAt(s, s.h.head);
    EntryAt(s, last);
    if s.c.walk == Stub && s.m.tail == Stub {
      forall t ensures CallsBy(s.h.calls, t) == ItemsBy(s.h.log[..s.h.head], t) {
        ItemsByPrefix(s.h.log, s.h.head, t);
        NothingInHand(s, t);
      }
      forall n | n in s.m.nodes && s.m.nodes[n].accepted
        ensures s.m.nodes[n].completion == Done || s.m.nodes[n].completion == Stopped
      {
        EmptyChainSettled(s, n);
      }
    } else {
      var k := if s.h.log[s.h.head].Item? then s.h.head else last;
      EntryAt(s, k);
      assert s.h.log[k].Item?;
      var t := s.h.log[k].thread;
      ItemsByPrefix(s.h.log, s.h.head, t);
      NothingInHand(s, t);
    }
  }

  lemma NothingInHand(s: State, t: nat)
    requires Inv(s) && LinkOwers(s) == {}
    ensures CallsBy(s.h.calls, t) == ItemsBy(s.h.log, t)
  {
    assert CallOrderOf(s, t);
    if t in s.c.disp { assert t !in LinkOwers(s); }
  }

  lemma EmptyChainSettled(s: State, n: nat)
    requires Inv(s) && LinkOwers(s) == {} && s.c.walk == Stub && s.m.tail == Stub && !HasCurrent(s.c.loop)
    requires n in s.m.nodes && s.m.nodes[n].accepted
    ensures s.m.nodes[n].completion == Done || s.m.nodes[n].completion == Stopped
  {
    EntryAt(s, s.h.head);
    EntryAt(s, |s.h.log| - 1);
    assert NodeOk(s, n);
    match s.m.nodes[n].place
    case InHand(t) => assert ThreadOk(s, t); assert t !in LinkOwers(s);
    case _ =>
  }

  // ----- the drain -----

  /** What `drain` may conclude from one look: where its test holds, every accepted node is
      settled exactly when the pass that stored the idle mark stood on the sentinel. */
  lemma IdleLookIsSoundIffMarkedOnSentinel(s: State)
    requires Reachable(s)
    requires InboxIdle(s.m.tail == Stub, s.m.phase == Working, s.m.acceptCount, s.m.dispatchCount)
    ensures s.h.idleAt < |s.h.log|
    ensures AllSettled(s) <==> s.h.log[s.h.idleAt].Anchor?
  {
    ReachableInv(s);
    assert Window(s) == {};
    EntryAt(s, s.h.head);
    EntryAt(s, |s.h.log| - 1);
    forall t | t in s.c.disp ensures !OwesLink(s.c.disp[t]) { assert t !in Window(s); }
    if s.h.log[s.h.idleAt].Anchor? {
      forall n | n in s.m.nodes && s.m.nodes[n].accepted
        ensures s.m.nodes[n].completion == Done || s.m.nodes[n].completion == Stopped
      {
        SettledWhereQuiet(s, n);
      }
    } else {
      var n := s.h.log[s.h.idleAt].id;
      assert HasCurrent(s.c.loop) ==> RunsNode(s.c.loop, n) && NodeOk(s, n);
    }
  }

  lemma SettledWhereQuiet(s: State, n: nat)
    requires Inv(s) && LinkOwers(s) == {} && SettledTo(s) == |s.h.log| - 1 && s.h.log[s.h.head].Anchor?
    requires n in s.m.nodes && s.m.nodes[n].accepted
    ensures s.m.nodes[n].completion == Done || s.m.nodes[n].completion == Stopped
  {
    assert NodeOk(s, n);
    match s.m.nodes[n].place
    case InHand(t) => assert ThreadOk(s, t); assert t !in LinkOwers(s);
    case _ =>
  }

  /** Every IDLE or EXITED mark of the run is stored by a pass standing on the sentinel. */
  ghost predicate MarksOnSentinel(s: State, run: seq<Action>)
    requires Legal(s, run)
    decreases |run|
  {
    run == [] || ((run[0] == LoopStep && (s.c.loop.MarkIdle? || s.c.loop.MarkExited?) ==> s.c.walk == Stub)
                  && MarksOnSentinel(Step(s, run[0]), run[1..]))
  }

  /** What a drainer has proved so far, when no mark was stored off the sentinel. */
  ghost predicate DrainProved(s: State, d: Drainer) {
    match d
    case ReadAccept(_, atStub, working, mark) => atStub && !working ==> mark <= SettledTo(s) + 1 && AnchorBelow(s, mark)
    case ReadDispatch(_, atStub, working, _, mark) => atStub && !working ==> mark <= SettledTo(s) + 1 && AnchorBelow(s, mark)
    case ReadPhase(_, atStub, mark) => atStub ==> AnchorBelow(s, mark)
    case Returned(mark) => mark <= SettledTo(s) + 1 && AnchorBelow(s, mark)
    case _ => true
  }

  /** The tail read that saw the sentinel saw it as the newest exchange. */
  ghost predicate AnchorBelow(s: State, mark: nat) {
    0 < mark <= |s.h.log| && s.h.log[mark - 1].Anchor?
  }

  ghost predicate Truthful(s: State) {
    && s.h.idleAt < |s.h.log| && s.h.log[s.h.idleAt].Anchor?
    && (forall t | t in s.c.drains :: DrainProved(s, s.c.drains[t]))
  }

  lemma SettledGrowsLoop(s: State)
    requires Inv(s) && !Resting(s.c.loop)
    ensures SettledTo(s) <= SettledTo(LoopStepOf(s))
  {
    EntryAt(s, s.h.head);
  }

  lemma SettledGrowsResting(s: State)
    requires Resting(s.c.loop)
    ensures SettledTo(s) <= SettledTo(LoopStepOf(s))
  {
  }

  /** Neither the log nor the settled stretch ever shrinks. */
  lemma SettledGrows(s: State, a: Action)
    requires Inv(s) && Enabled(s, a)
    ensures SettledTo(s) <= SettledTo(Step(s, a)) && s.h.log <= Step(s, a).h.log
  {
    match a
    case Dispatch(t) => DispatchEffect(s, t);
    case LoopStep =>
      LoopEffect(s);
      if Resting(s.c.loop) { SettledGrowsResting(s); } else { SettledGrowsLoop(s); }
    case _ =>
  }

  lemma IdleAtMoves(s: State, a: Action)
    requires Enabled(s, a)
    ensures Step(s, a).h.idleAt ==
            if a == LoopStep && (s.c.loop.MarkIdle? || s.c.loop.MarkExited?) then s.h.head else s.h.idleAt
    ensures !a.BeginDrain? && !a.DrainStep? && !a.LeaveDrain? ==> Step(s, a).c.drains == s.c.drains
  {
    match a
    case Dispatch(t) => DispatchEffect(s, t);
    case LoopStep => LoopEffect(s); IdleAtLoop(s);
    case _ =>
  }

  lemma IdleAtLoop(s: State)
    ensures LoopStepOf(s).h.idleAt ==
            if s.c.loop.MarkIdle? || s.c.loop.MarkExited? then s.h.head else s.h.idleAt
  {
  }

  lemma KeepProof(s: State, r: State, d: Drainer)
    requires DrainProved(s, d) && SettledTo(s) <= SettledTo(r) && s.h.log <= r.h.log
    ensures DrainProved(r, d)
  {
  }

  lemma DrainReads(s: State, t: nat)
    requires Inv(s) && Truthful(s) && t in s.c.drains
    ensures DrainProved(s, DrainNext(s, s.c.drains[t]))
  {
    EntryAt(s, |s.h.log| - 1);
    assert DrainProved(s, s.c.drains[t]);
  }

  lemma TruthfulStep(s: State, a: Action)
    requires Inv(s) && Truthful(s) && Enabled(s, a)
    requires a == LoopStep && (s.c.loop.MarkIdle? || s.c.loop.MarkExited?) ==> s.c.walk == Stub
    ensures Truthful(Step(s, a))
  {
    var r := Step(s, a);
    SettledGrows(s, a);
    IdleAtMoves(s, a);
    EntryAt(s, s.h.head);
    forall t | t in r.c.drains ensures DrainProved(r, r.c.drains[t]) {
      if a == DrainStep(t) {
        DrainReads(s, t);
        KeepProof(s, r, r.c.drains[t]);
      } else if t in s.c.drains {
        KeepProof(s, r, s.c.drains[t]);
      }
    }
  }

  lemma {:induction false} TruthfulRun(s: State, run: seq<Action>)
    requires Inv(s) && Truthful(s) && Legal(s, run) && MarksOnSentinel(s, run)
    ensures Inv(After(s, run)) && Truthful(After(s, run))
    decreases |run|
  {
    if run != [] {
      StepInv(s, run[0]);
      TruthfulStep(s, run[0]);
      TruthfulRun(Step(s, run[0]), run[1..]);
    }
  }

  // a dispatched node, followed to the drain's return

  /** The node's dispatch is the exchange at log position k, or has run. */
  predicate Tracked(s: State, n: nat, k: nat) {
    && k < |s.h.log| && n in s.m.nodes && s.m.nodes[n].accepted
    && match s.m.nodes[n].place
       case Free => s.m.nodes[n].completion == Done
       case InHand(_) => false
       case InChain(at) => at == k
       case AtLoop => s.h.head == k + 1
  }

  /** Every tail the drainer has read is newer than log position k. */
  predicate LooksPast(d: Drainer, k: nat) {
    match d
    case ReadPhase(_, _, mark) => k < mark
    case ReadAccept(_, _, _, mark) => k < mark
    case ReadDispatch(_, _, _, _, mark) => k < mark
    case Returned(mark) => k < mark
    case _ => true
  }

  /** No step of the run destroys the node or dispatches it again. */
  predicate LeavesNode(run: seq<Action>, n: nat) {
    forall a | a in run :: a != Destroy(n) && !(a.Begin? && a.n == n)
  }

  lemma TrackedDispatch(s: State, t: nat, n: nat, k: nat)
    requires Tracked(s, n, k) && t in s.c.disp && ThreadOk(s, t)
    ensures Tracked(DispatchStep(s, t), n, k)
  {
    DispatchEffect(s, t);
  }

  /** A pass that takes no node moves neither a place nor the walk's position. */
  lemma TrackedIdle(s: State, n: nat, k: nat)
    requires Tracked(s, n, k) && (Resting(s.c.loop) || Reanchoring(s.c.loop))
    ensures Tracked(LoopStepOf(s), n, k)
  {
  }

  lemma TrackedRunning(s: State, n: nat, k: nat)
    requires Inv(s) && Tracked(s, n, k) && HasCurrent(s.c.loop)
    ensures Tracked(LoopStepOf(s), n, k)
  {
    assert NodeOk(s, n);
  }

  lemma TrackedLook(s: State, n: nat, k: nat)
    requires Inv(s) && Tracked(s, n, k) && (s.c.loop.LoadTail? || s.c.loop.LoadNext?)
    ensures Tracked(LoopStepOf(s), n, k)
  {
    assert NodeOk(s, n);
    EntryAt(s, s.h.head);
  }

  lemma TrackedLoop(s: State, n: nat, k: nat)
    requires Inv(s) && Tracked(s, n, k)
    ensures Tracked(LoopStepOf(s), n, k)
  {
    if HasCurrent(s.c.loop) {
      TrackedRunning(s, n, k);
    } else if s.c.loop.LoadTail? || s.c.loop.LoadNext? {
      TrackedLook(s, n, k);
    } else {
      TrackedIdle(s, n, k);
    }
  }

  lemma TrackedStep(s: State, a: Action, n: nat, k: nat)
    requires Inv(s) && Enabled(s, a) && Tracked(s, n, k) && LeavesNode([a], n)
    ensures Tracked(Step(s, a), n, k)
  {
    assert a in [a];
    match a
    case Dispatch(t) => assert ThreadOk(s, t); TrackedDispatch(s, t, n, k);
    case LoopStep => TrackedLoop(s, n, k);
    case _ =>
  }

  lemma LooksPastStep(s: State, a: Action, d: nat, k: nat)
    requires Enabled(s, a) && k < |s.h.log| && (d in s.c.drains ==> LooksPast(s.c.drains[d], k))
    ensures d in Step(s, a).c.drains ==> LooksPast(Step(s, a).c.drains[d], k)
  {
    IdleAtMoves(s, a);
  }

  lemma {:induction false} TrackedRun(s: State, run: seq<Action>, d: nat, n: nat, k: nat)
    requires Inv(s) && Truthful(s) && Legal(s, run) && MarksOnSentinel(s, run)
    requires Tracked(s, n, k) && LeavesNode(run, n) && (d in s.c.drains ==> LooksPast(s.c.drains[d], k))
    ensures var r := After(s, run);
            Inv(r) && Truthful(r) && Tracked(r, n, k) && (d in r.c.drains ==> LooksPast(r.c.drains[d], k))
    decreases |run|
  {
    if run != [] {
      var a := run[0];
      assert a in run;
      StepInv(s, a);
      TruthfulStep(s, a);
      TrackedStep(s, a, n, k);
      LooksPastStep(s, a, d, k);
      TrackedRun(Step(s, a), run[1..], d, n, k);
    }
  }

  lemma TrackedIsDone(s: State, d: nat, n: nat, k: nat)
    requires Inv(s) && Truthful(s) && Tracked(s, n, k)
    requires d in s.c.drains && s.c.drains[d].Returned? && LooksPast(s.c.drains[d], k)
    ensures s.m.nodes[n].completion == Done
  {
    assert NodeOk(s, n) && DrainProved(s, s.c.drains[d]);
  }

  lemma ReturnedIsTracked(s: State, n: nat) returns (k: nat)
    requires Inv(s) && n in s.m.nodes && s.m.nodes[n].accepted && !Held(s, n) && s.m.nodes[n].completion != Stopped
    ensures Tracked(s, n, k)
  {
    assert NodeOk(s, n);
    var place := s.m.nodes[n].place;
    k := if place.InChain? then place.k else if place.AtLoop? then s.h.head - 1 else 0;
  }

  /** With every idle mark stored on the sentinel, `drain` keeps its promise: whatever was
      dispatched, accepted and exchanged before the call, and is not dispatched again or
      destroyed since, reads DONE when the call has returned. */
  lemma DrainIsSound(mode: WaitMode, before: seq<Action>, s: State, during: seq<Action>, d: nat, n: nat)
    requires Legal(Init(mode), before) && MarksOnSentinel(Init(mode), before) && s == After(Init(mode), before)
    requires d !in s.c.drains && n in s.m.nodes && s.m.nodes[n].accepted
    requires !Held(s, n) && s.m.nodes[n].completion != Stopped
    requires Legal(s, during) && MarksOnSentinel(s, during) && LeavesNode(during, n)
    requires d in After(s, during).c.drains && After(s, during).c.drains[d].Returned?
    ensures n in After(s, during).m.nodes && After(s, during).m.nodes[n].completion == Done
  {
    InitInv(mode);
    TruthfulRun(Init(mode), before);
    var k := ReturnedIsTracked(s, n);
    TrackedRun(s, during, d, n, k);
    TrackedIsDone(After(s, during), d, n, k);
  }

  // ----- the wake -----

  /** A parked loop with the flag clear and no stop owes nothing, unless some dispatch
      past its exchange still owes its wake store. */
  lemma NoLostWakeup(s: State)
    requires Reachable(s) && s.c.loop.Parked? && !s.m.wake
    ensures s.m.stop ==> s.c.stoppers > 0
    ensures WakeOwers(s) == {} ==> s.c.walk == Stub && s.m.tail == Stub
  {
    ReachableInv(s);
  }

  /** A blocked loop sleeps for good only over a run-out inbox with the stop open. */
  lemma BlockedForGoodMeansDone(s: State)
    requires Reachable(s) && s.c.loop.Parked? && !Enabled(s, LoopStep)
    requires s.c.disp == map[] && s.c.stoppers == 0
    ensures !s.m.stop && AllSettled(s) && AllRan(s)
  {
    ReachableInv(s);
    assert WakeOwers(s) == {} && LinkOwers(s) == {};
    EntryAt(s, s.h.head);
    EntryAt(s, |s.h.log| - 1);
    forall n | n in s.m.nodes && s.m.nodes[n].accepted
      ensures s.m.nodes[n].completion == Done || s.m.nodes[n].completion == Stopped
    {
      EmptyChainSettled(s, n);
    }
    forall t ensures CallsBy(s.h.calls, t) == ItemsBy(s.h.log[..s.h.head], t) {
      ItemsByPrefix(s.h.log, s.h.head, t);
      NothingInHand(s, t);
    }
  }
}
