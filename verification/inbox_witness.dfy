/** Three runs of the code as it is written that break what its comments promise. */
module InboxWitness {
  import opened Inbox
  import opened InboxInvariant
  import opened InboxTheorems
  import opened InboxOutcome
  import opened InboxStop

  lemma {:induction false} AfterSnoc(s: State, run: seq<Action>, a: Action)
    requires Legal(s, run) && Enabled(After(s, run), a)
    ensures Legal(s, run + [a]) && After(s, run + [a]) == Step(After(s, run), a)
    decreases |run|
  {
    if run == [] {
      assert [] + [a] == [a];
    } else {
      AfterSnoc(Step(s, run[0]), run[1..], a);
      assert (run + [a])[0] == run[0] && (run + [a])[1..] == run[1..] + [a];
    }
  }

  lemma ReachStep(s: State, a: Action) returns (r: State)
    requires Reachable(s) && Enabled(s, a)
    ensures Reachable(r) && r == Step(s, a)
  {
    var mode, run :| Legal(Init(mode), run) && After(Init(mode), run) == s;
    AfterSnoc(Init(mode), run, a);
    assert After(Init(mode), run + [a]) == Step(s, a);
    r := Step(s, a);
  }

  lemma ReachInit(mode: WaitMode) returns (s: State)
    ensures Reachable(s) && s == Init(mode)
  {
    s := Init(mode);
    assert Legal(Init(mode), []) && After(Init(mode), []) == s;
  }

  function Words(completion: Completion, accepted: bool, place: Place): NodeWords {
    NodeWords(Null, completion, accepted, place)
  }

  lemma BeginFresh(s0: State, t: nat, n: nat) returns (s: State)
    requires Reachable(s0) && t !in s0.c.disp && n !in s0.m.nodes
    ensures Reachable(s) && s.h == s0.h
    ensures s.m == s0.m.(nodes := s0.m.nodes[n := Words(Pending, false, InHand(t))])
    ensures s.c == Turn(s0.c, t, Accepting(n))
  {
    ReachableInv(s0);
    s := ReachStep(s0, Construct(n));
    forall u | u in s0.c.disp ensures !Holds(s0.c.disp[u], n) { assert ThreadOk(s0, u); }
    s := ReachStep(s, Begin(t, n));
  }

  /** The dispatch is accepted by an open context. */
  lemma AcceptFresh(s0: State, t: nat, n: nat) returns (s: State)
    requires Reachable(s0) && t in s0.c.disp && s0.c.disp[t] == Accepting(n) && !s0.m.stop
    ensures Reachable(s) && s.m == s0.m.(acceptCount := s0.m.acceptCount + 1)
    ensures s.c == Turn(s0.c, t, Resetting(n)) && s.h == s0.h.(calls := s0.h.calls + [(t, n)])
  {
    s := ReachStep(s0, Action.Dispatch(t));
    assert s.c == Turn(s0.c, t, ReadingStop(n));
    s := ReachStep(s, Action.Dispatch(t));
  }

  lemma StampFresh(s0: State, t: nat, n: nat) returns (s: State)
    requires Reachable(s0) && t in s0.c.disp && s0.c.disp[t] == Resetting(n) && n in s0.m.nodes
    ensures Reachable(s) && s.h == s0.h && s.c == Turn(s0.c, t, Clearing(n))
    ensures s.m == s0.m.(nodes := s0.m.nodes[n := s0.m.nodes[n].(completion := Pending, accepted := true)])
  {
    s := ReachStep(s0, Action.Dispatch(t));
    assert s.c == Turn(s0.c, t, Stamping(n));
    s := ReachStep(s, Action.Dispatch(t));
  }

  lemma ExchangeFresh(s0: State, t: nat, n: nat) returns (s: State)
    requires Reachable(s0) && t in s0.c.disp && s0.c.disp[t] == Clearing(n) && n in s0.m.nodes && |s0.h.log| > 0
    ensures Reachable(s)
    ensures s.m == s0.m.(nodes := s0.m.nodes[n := s0.m.nodes[n].(next := Null, place := InChain(|s0.h.log|))],
                         tail := Node(n))
    ensures s.c == Turn(s0.c, t, Linking(s0.m.tail, n, |s0.h.log| - 1))
    ensures s.h == s0.h.(log := s0.h.log + [Item(t, n)], owed := s0.h.owed[|s0.h.log| - 1 := Producer(t)])
  {
    s := ReachStep(s0, Action.Dispatch(t));
    assert s.c == Turn(s0.c, t, Exchanging(n));
    s := ReachStep(s, Action.Dispatch(t));
  }

  lemma BeginAccepted(s0: State, t: nat, n: nat) returns (s: State)
    requires Reachable(s0) && t !in s0.c.disp && n !in s0.m.nodes && !s0.m.stop
    ensures Reachable(s) && s.c == Turn(s0.c, t, Resetting(n))
    ensures s.m == s0.m.(nodes := s0.m.nodes[n := Words(Pending, false, InHand(t))],
                         acceptCount := s0.m.acceptCount + 1)
    ensures s.h == s0.h.(calls := s0.h.calls + [(t, n)])
  {
    s := BeginFresh(s0, t, n);
    s := AcceptFresh(s, t, n);
    assert s.c.disp == s0.c.disp[t := Resetting(n)];
  }

  lemma ExchangeAccepted(s0: State, t: nat, n: nat) returns (s: State)
    requires Reachable(s0) && t in s0.c.disp && s0.c.disp[t] == Resetting(n) && n in s0.m.nodes && |s0.h.log| > 0
    ensures Reachable(s) && s.c == Turn(s0.c, t, Linking(s0.m.tail, n, |s0.h.log| - 1))
    ensures s.m == s0.m.(nodes := s0.m.nodes[n := Words(Pending, true, InChain(|s0.h.log|))], tail := Node(n))
    ensures s.h == s0.h.(log := s0.h.log + [Item(t, n)], owed := s0.h.owed[|s0.h.log| - 1 := Producer(t)])
  {
    s := StampFresh(s0, t, n);
    s := ExchangeFresh(s, t, n);
    assert s.m.nodes == s0.m.nodes[n := Words(Pending, true, InChain(|s0.h.log|))];
    assert s.c.disp == s0.c.disp[t := Linking(s0.m.tail, n, |s0.h.log| - 1)];
  }

  /** A dispatch of a fresh node up to its tail exchange: the link is still owed. */
  lemma UpToExchange(s0: State, t: nat, n: nat) returns (s: State)
    requires Reachable(s0) && t !in s0.c.disp && n !in s0.m.nodes && !s0.m.stop && |s0.h.log| > 0
    ensures Reachable(s)
    ensures s.m == s0.m.(nodes := s0.m.nodes[n := Words(Pending, true, InChain(|s0.h.log|))],
                         tail := Node(n), acceptCount := s0.m.acceptCount + 1)
    ensures s.c == Turn(s0.c, t, Linking(s0.m.tail, n, |s0.h.log| - 1))
    ensures s.h == s0.h.(calls := s0.h.calls + [(t, n)], log := s0.h.log + [Item(t, n)],
                         owed := s0.h.owed[|s0.h.log| - 1 := Producer(t)])
  {
    s := BeginAccepted(s0, t, n);
    s := ExchangeAccepted(s, t, n);
  }

  /** The rest of the dispatch: link, count and wake. */
  lemma LinkFresh(s0: State, t: nat, prev: Ptr, n: nat, at: nat) returns (s: State)
    requires Reachable(s0) && t in s0.c.disp && s0.c.disp[t] == Linking(prev, n, at)
    ensures Reachable(s)
    ensures s.m == s0.m.(nodes := SetNext(s0.m.nodes, prev, Node(n)),
                         stubNext := if prev == Stub then Node(n) else s0.m.stubNext,
                         dispatchCount := s0.m.dispatchCount + 1, wake := true)
    ensures s.c == Leave(s0.c, t) && s.h == s0.h.(owed := s0.h.owed - {at})
  {
    s := ReachStep(s0, Action.Dispatch(t));
    s := ReachStep(s, Action.Dispatch(t));
    s := ReachStep(s, Action.Dispatch(t));
  }

  lemma Loop(s0: State) returns (s: State)
    requires Reachable(s0) && Enabled(s0, LoopStep)
    ensures Reachable(s) && s == LoopStepOf(s0)
  {
    s := ReachStep(s0, LoopStep);
  }

  /** A pass over the fresh sentinel finds the inbox empty. */
  lemma EmptyPass() returns (s: State)
    ensures Reachable(s) && s == Init(Block).(c := Goto(Init(Block).c, Inbox.LoadStop))
  {
    s := ReachInit(Block);
    s := Loop(s);
    s := Loop(s);
  }

  /** The end of a pass that reads a standing stop and settled counts. */
  lemma EndPass(s0: State) returns (s: State)
    requires Reachable(s0) && s0.c.loop == Inbox.LoadStop && s0.m.stop && s0.m.acceptCount == s0.m.dispatchCount
    ensures Reachable(s) && s.c == Goto(s0.c, Inbox.MarkExited) && s.m == s0.m && s.h == s0.h
  {
    s := ReadStopAndAccept(s0);
    s := Loop(s);
  }

  lemma ReadStopAndAccept(s0: State) returns (s: State)
    requires Reachable(s0) && s0.c.loop == Inbox.LoadStop && s0.m.stop
    ensures Reachable(s) && s == s0.(c := Goto(s0.c, Inbox.LoadDispatch(true, s0.m.acceptCount)))
  {
    s := Loop(s0);
    assert s.c == Goto(s0.c, Inbox.LoadAccept(true));
    s := Loop(s);
  }

  lemma End(s0: State) returns (s: State)
    requires Reachable(s0) && s0.c.loop == Inbox.MarkExited
    ensures Reachable(s) && s.c == Goto(s0.c, Inbox.Ended) && s.m.nodes == s0.m.nodes && s.m.tail == s0.m.tail
  {
    s := Loop(s0);
    s := Loop(s);
  }

  /** As written, the loop reads the chain before the stop and the counts: a whole
      dispatch and a stop between the two reads let it end over an accepted, unrun node. */
  lemma ExitCanStrandAnAcceptedNode()
    ensures exists s :: Reachable(s) && s.c.loop.Ended? && s.c.disp == map[] && !AllSettled(s) && !AllRan(s)
  {
    var s := EmptyPass();
    s := UpToExchange(s, 1, 0);
    s := LinkFresh(s, 1, Stub, 0, 0);
    s := ReachStep(s, RequestStop);
    s := EndPass(s);
    s := End(s);
    assert s.m.nodes[0].completion == Pending;
    ExitIsCompleteIffEmpty(s);
  }

  /** The walk stands on node 0, about to re-anchor behind it. */
  lemma AboutToReanchor() returns (s: State)
    ensures Reachable(s) && s.c.loop == ExchangeStub && s.c.walk == Node(0) && s.c.disp == map[] && s.c.drains == map[]
    ensures s.m == Shared(map[0 := Words(Pending, true, InChain(1))], Null, Node(0), true, false, Working, 0, 1, 1)
    ensures s.h.log == [Anchor, Item(1, 0)] && s.h.head == 1
  {
    s := ReachInit(Block);
    s := UpToExchange(s, 1, 0);
    s := LinkFresh(s, 1, Stub, 0, 0);
    assert s.m == Shared(map[0 := Words(Pending, true, InChain(1))], Node(0), Node(0), true, false, Working, 0, 1, 1);
    s := Loop(s);
    s := Loop(s);
    assert s.c.walk == Node(0) && s.c.loop == Inbox.LoadTail;
    s := ReanchorPass(s);
  }

  lemma ReanchorPass(s0: State) returns (s: State)
    requires Reachable(s0) && s0.c.loop == Inbox.LoadTail && s0.c.walk == s0.m.tail && s0.c.walk.Node?
    requires NextOf(s0, s0.c.walk) == Null
    ensures Reachable(s) && s.c == Goto(s0.c, ExchangeStub) && s.h == s0.h
    ensures s.m == s0.m.(phase := Working, stubNext := Null)
  {
    s := Loop(s0);
    s := Loop(s);
    assert s.c.loop == MarkReanchor;
    s := Loop(s);
    s := Loop(s);
  }

  /** A producer swaps the tail just before the re-anchor does, and owes its link. */
  lemma RacedReanchor() returns (s: State)
    ensures Reachable(s) && s.c.loop == Inbox.LoadTail && s.c.walk == Node(0) && s.c.drains == map[]
    ensures s.c.disp == map[2 := Linking(Node(0), 1, 1)]
    ensures s.m == Shared(map[0 := Words(Pending, true, InChain(1)), 1 := NodeWords(Stub, Pending, true, InChain(2))],
                          Null, Stub, true, false, Working, 0, 2, 1)
    ensures s.h.log == [Anchor, Item(1, 0), Item(2, 1), Anchor] && s.h.head == 1
  {
    s := AboutToReanchor();
    s := UpToExchange(s, 2, 1);
    s := AnchorPass(s);
    assert s.m.nodes == map[0 := Words(Pending, true, InChain(1)), 1 := NodeWords(Stub, Pending, true, InChain(2))];
  }

  lemma AnchorPass(s0: State) returns (s: State)
    requires Reachable(s0) && s0.c.loop == ExchangeStub && s0.m.tail.Node? && s0.m.tail.id in s0.m.nodes
    requires |s0.h.log| > 0
    ensures Reachable(s) && s.c == Goto(s0.c, Inbox.LoadTail)
    ensures s.m == s0.m.(nodes := SetNext(s0.m.nodes, s0.m.tail, Stub), tail := Stub)
    ensures s.h.log == s0.h.log + [Anchor] && s.h.head == s0.h.head
  {
    s := Loop(s0);
    assert s.c.loop == LinkStub(s0.m.tail, |s0.h.log| - 1);
    s := Loop(s);
  }

  /** A pass off the tail with no link behind its walk holds no node to run. */
  lemma OwedPass(s0: State) returns (s: State)
    requires Reachable(s0) && s0.c.loop == Inbox.LoadTail && s0.c.walk != s0.m.tail && NextOf(s0, s0.c.walk) == Null
    ensures Reachable(s) && s == s0.(c := Goto(s0.c, Inbox.LoadStop))
  {
    s := Loop(s0);
    s := Loop(s);
  }

  lemma MarkIdlePass(s0: State) returns (s: State)
    requires Reachable(s0) && s0.c.loop == Inbox.LoadStop && !s0.m.stop
    ensures Reachable(s) && s.c == Goto(s0.c, BumpIdle)
    ensures s.m == s0.m.(phase := Idle) && s.h == s0.h.(idleAt := s0.h.head)
  {
    s := Loop(s0);
    assert s.c.loop == MarkIdle;
    s := Loop(s);
  }

  /** The pass that finds the link owed stores the idle mark over the unrun node. */
  lemma MarkedIdle() returns (s: State)
    ensures Reachable(s) && s.c.walk == Node(0) && s.c.disp == map[] && s.c.drains == map[] && s.c.loop == BumpIdle
    ensures s.m.tail == Stub && s.m.phase == Idle && s.m.acceptCount == s.m.dispatchCount
    ensures 0 in s.m.nodes && s.m.nodes[0].completion == Pending && s.m.nodes[0].accepted
    ensures s.h.log == [Anchor, Item(1, 0), Item(2, 1), Anchor] && s.h.head == 1
  {
    s := RacedReanchor();
    s := OwedPass(s);
    s := MarkIdlePass(s);
    s := LinkFresh(s, 2, Node(0), 1, 1);
    assert s.c.disp == map[];
  }

  lemma DrainReturns(s0: State, t: nat) returns (s: State)
    requires Reachable(s0) && t !in s0.c.drains
    requires s0.m.tail == Stub && s0.m.phase != Working && s0.m.acceptCount == s0.m.dispatchCount
    ensures Reachable(s) && s.m == s0.m && s.h == s0.h
    ensures t in s.c.drains && s.c.drains[t] == Returned(|s0.h.log|)
    ensures s.c == s0.c.(drains := s.c.drains)
  {
    s := ReachStep(s0, BeginDrain(t));
    s := DrainReads(s, t);
    s := DrainReads(s, t);
    s := DrainSettles(s, t, s0.m.epoch, |s0.h.log|);
  }

  lemma DrainSettles(s0: State, t: nat, epoch: nat, mark: nat) returns (s: State)
    requires Reachable(s0) && t in s0.c.drains && s0.c.drains[t] == ReadPhase(epoch, true, mark)
    requires s0.m.phase != Working && s0.m.acceptCount == s0.m.dispatchCount
    ensures Reachable(s) && s.m == s0.m && s.h == s0.h && s.c == s0.c.(drains := s.c.drains)
    ensures t in s.c.drains && s.c.drains[t] == Returned(mark)
  {
    s := DrainReads(s0, t);
    s := DrainReads(s, t);
    s := DrainReads(s, t);
  }

  lemma DrainReads(s0: State, t: nat) returns (s: State)
    requires Reachable(s0) && t in s0.c.drains && !s0.c.drains[t].Returned? && !s0.c.drains[t].WaitEpoch?
    ensures Reachable(s) && s.m == s0.m && s.h == s0.h && s.c == s0.c.(drains := s.c.drains)
    ensures t in s.c.drains && s.c.drains[t] == DrainNext(s0, s0.c.drains[t])
  {
    s := ReachStep(s0, DrainStep(t));
  }

  /** As written, a pass that finds a link owed also stores IDLE: `drain` can return while
      a node of a dispatch that returned before drain began has not run. */
  lemma DrainCanReturnEarly()
    ensures exists s, t :: Reachable(s) && t in s.c.drains && s.c.drains[t] == Returned(4) && s.c.disp == map[]
                           && |s.h.log| == 4 && s.h.log[1].Item? && SettledTo(s) <= 1 && !AllSettled(s)
  {
    var s := MarkedIdle();
    s := DrainReturns(s, 9);
    assert s.m.nodes[0].accepted && s.m.nodes[0].completion == Pending;
    assert !AllSettled(s);
    assert s.c.drains[9] == Returned(4);
  }

  lemma {:induction false} ReachRun(s0: State, run: seq<Action>) returns (s: State)
    requires Reachable(s0) && Legal(s0, run)
    ensures Reachable(s) && s == After(s0, run)
    decreases |run|
  {
    s := s0;
    if run != [] {
      s := ReachStep(s0, run[0]);
      s := ReachRun(s, run[1..]);
    }
  }

  /** The loop of an untouched context has ended. */
  lemma EndedUntouched() returns (s: State)
    ensures Reachable(s) && s.c.loop == Inbox.Ended && s.c.walk == Stub && s.m.tail == Stub && s.m.stop
    ensures s.c.disp == map[] && s.c.drains == map[] && s.m.nodes == map[]
  {
    s := EmptyPass();
    s := ReachStep(s, RequestStop);
    s := EndPass(s);
    s := End(s);
    ExitIsCompleteIffEmpty(s);
  }

  /** A late dispatch of a fresh node stands between its accept and its stop read. */
  lemma EndedUnderALateCall() returns (s: State)
    ensures Reachable(s) && s.c.loop == Inbox.Ended && s.c.walk == Stub && s.m.tail == Stub && s.m.stop
    ensures s.c.disp == map[1 := ReadingStop(0)] && s.c.drains == map[] && 0 in s.m.nodes
  {
    s := EndedUntouched();
    s := BeginFresh(s, 1, 0);
    s := ReachStep(s, Action.Dispatch(1));
    assert s.c.disp == map[1 := ReadingStop(0)];
  }

  /** A look that falls into the late call's window finds the counts apart. */
  lemma LateLook() returns (s: State)
    ensures Reachable(s) && s.c.loop == Inbox.Ended && s.c.walk == Stub && s.m.tail == Stub && s.m.stop
    ensures s.c.disp == map[1 := ReadingStop(0)] && 0 in s.m.nodes
    ensures s.c.drains == map[9 := WaitEpoch(s.m.epoch)]
  {
    var s0 := EndedUnderALateCall();
    CountsDifferByTheWindow(s0);
    assert Window(s0) == {1};
    s := ReachStep(s0, BeginDrain(9));
    var look := LookAlone(s, 9);
    s := ReachRun(s, look);
    assert s.c.drains == map[9 := WaitEpoch(s.m.epoch)];
  }

  /** As written, a refusal withdraws its accept and wakes nobody: a drain of an ended
      context that looks while a late dispatch is being refused waits for good, over every
      continuation, though everything accepted has run. */
  lemma DrainCanWaitForGood() returns (s: State, t: nat)
    ensures Reachable(s) && s.c.loop.Ended? && s.c.disp == map[] && AllSettled(s) && AllRan(s)
    ensures t in s.c.drains && s.c.drains[t].WaitEpoch?
    ensures forall run | Legal(s, run) ::
              t in After(s, run).c.drains && After(s, run).c.drains[t].WaitEpoch? && !Enabled(After(s, run), DrainStep(t))
  {
    t := 9;
    s := LateLook();
    var refused := TurnedAwayAlone(s, 1, 0);
    s := ReachRun(s, refused);
    ExitIsCompleteIffEmpty(s);
    forall run | Legal(s, run)
      ensures t in After(s, run).c.drains && After(s, run).c.drains[t].WaitEpoch? && !Enabled(After(s, run), DrainStep(t))
    {
      WaitsForGood(s, run, t);
    }
  }
}
