/** Every step of the inbox keeps the chain, the ownership of every node and
    every thread's place. */
module InboxSteps {
  import opened Inbox
  import opened InboxInvariant

  ghost predicate Core(s: State) {
    Chain(s) && Nodes(s) && Threads(s) && Pass(s)
  }

  // ----- one entry, one node, one thread at a time -----

  lemma EntryAt(s: State, k: nat)
    requires Chain(s) && s.h.head <= k < |s.h.log|
    ensures EntryOk(s, k)
  {
    assert EntryOk(s, k);
  }

  // ----- steps that keep the chain's words -----

  /** The words and history the chain stands on, apart from the nodes and threads. */
  ghost predicate SameChain(s: State, r: State) {
    && r.m.stubNext == s.m.stubNext && r.m.tail == s.m.tail && r.c.walk == s.c.walk && r.m.phase == s.m.phase
    && r.h.log == s.h.log && r.h.head == s.h.head && r.h.owed == s.h.owed && r.h.anchor == s.h.anchor
    && r.c.loop == s.c.loop
  }

  /** A step of thread t on a node it holds, or takes up, or lets go. */
  ghost predicate HandMove(s: State, r: State, t: nat, n: nat, w: NodeWords, d: Dispatcher) {
    && Core(s) && SameChain(s, r)
    && n in s.m.nodes && (s.m.nodes[n].place == InHand(t) || s.m.nodes[n].place == Free)
    && r.m.nodes == s.m.nodes[n := w] && r.c.disp == s.c.disp[t := d]
    && (t in s.c.disp ==> Holds(s.c.disp[t], n))
  }

  lemma HandEntry(s: State, r: State, t: nat, n: nat, w: NodeWords, d: Dispatcher, k: nat)
    requires HandMove(s, r, t, n, w, d) && s.h.head <= k < |s.h.log|
    ensures EntryOk(r, k)
  {
    EntryAt(s, k);
  }

  lemma HandNode(s: State, r: State, t: nat, n: nat, w: NodeWords, d: Dispatcher, m: nat)
    requires HandMove(s, r, t, n, w, d) && m in s.m.nodes && m != n
    ensures NodeOk(r, m)
  {
    assert NodeOk(s, m);
  }

  lemma HandThread(s: State, r: State, t: nat, n: nat, w: NodeWords, d: Dispatcher, u: nat)
    requires HandMove(s, r, t, n, w, d) && u in s.c.disp && u != t
    ensures ThreadOk(r, u)
  {
    assert ThreadOk(s, u);
  }

  lemma HandStep(s: State, r: State, t: nat, n: nat, w: NodeWords, d: Dispatcher)
    requires HandMove(s, r, t, n, w, d) && NodeOk(r, n) && ThreadOk(r, t)
    ensures Core(r)
  {
    forall k: nat | r.h.head <= k < |r.h.log| ensures EntryOk(r, k) { HandEntry(s, r, t, n, w, d, k); }
    forall m | m in r.m.nodes ensures NodeOk(r, m) { if m != n { HandNode(s, r, t, n, w, d, m); } }
    forall u | u in r.c.disp ensures ThreadOk(r, u) { if u != t { HandThread(s, r, t, n, w, d, u); } }
  }

  /** A step of thread t that touches no node and owes no link. */
  lemma QuietStep(s: State, r: State, t: nat)
    requires Core(s) && SameChain(s, r) && r.m.nodes == s.m.nodes
    requires t in s.c.disp && (s.c.disp[t].Withdrawing? || s.c.disp[t].Counting? || s.c.disp[t].Waking?)
    requires r.c.disp == s.c.disp[t := Waking] || r.c.disp == s.c.disp - {t}
    ensures Core(r)
  {
    forall k: nat | r.h.head <= k < |r.h.log| ensures EntryOk(r, k) {
      EntryAt(s, k);
    }
    forall m | m in r.m.nodes ensures NodeOk(r, m) {
      assert NodeOk(s, m);
    }
    forall u | u in r.c.disp ensures ThreadOk(r, u) {
      assert ThreadOk(s, u);
    }
  }

  /** A step that moves none of the words the core speaks of. */
  lemma ElsewhereStep(s: State, r: State)
    requires Core(s) && SameChain(s, r) && r.m.nodes == s.m.nodes && r.c.disp == s.c.disp
    ensures Core(r)
  {
    forall k: nat | r.h.head <= k < |r.h.log| ensures EntryOk(r, k) {
      EntryAt(s, k);
    }
    forall m | m in r.m.nodes ensures NodeOk(r, m) {
      assert NodeOk(s, m);
    }
    forall u | u in r.c.disp ensures ThreadOk(r, u) {
      assert ThreadOk(s, u);
    }
  }

  // ----- the callers -----

  /** A node its caller may reuse or destroy stands in nobody's hands. */
  lemma SettledIsFree(s: State, n: nat)
    requires Core(s) && n in s.m.nodes && !Held(s, n)
    requires s.m.nodes[n].completion == Done || s.m.nodes[n].completion == Stopped || !s.m.nodes[n].accepted
    ensures s.m.nodes[n].place == Free
  {
    assert NodeOk(s, n);
    match s.m.nodes[n].place
    case InChain(k) => EntryAt(s, k); assert false;
    case _ =>
  }

  lemma ConstructCore(s: State, n: nat)
    requires Core(s) && Enabled(s, Construct(n))
    ensures Core(Step(s, Construct(n)))
  {
    var r := Step(s, Construct(n));
    forall k: nat | r.h.head <= k < |r.h.log| ensures EntryOk(r, k) {
      EntryAt(s, k);
    }
    forall m | m in r.m.nodes ensures NodeOk(r, m) {
      if m != n {
        assert NodeOk(s, m);
      }
    }
    forall u | u in r.c.disp ensures ThreadOk(r, u) {
      assert ThreadOk(s, u);
    }
  }

  lemma DestroyCore(s: State, n: nat)
    requires Core(s) && Enabled(s, Destroy(n))
    ensures Core(Step(s, Destroy(n)))
  {
    var r := Step(s, Destroy(n));
    SettledIsFree(s, n);
    forall k: nat | r.h.head <= k < |r.h.log| ensures EntryOk(r, k) {
      EntryAt(s, k);
    }
    forall m | m in r.m.nodes ensures NodeOk(r, m) {
      assert NodeOk(s, m);
    }
    forall u | u in r.c.disp ensures ThreadOk(r, u) {
      assert ThreadOk(s, u);
    }
  }

  lemma BeginCore(s: State, t: nat, n: nat)
    requires Core(s) && Enabled(s, Begin(t, n))
    ensures Core(Step(s, Begin(t, n)))
  {
    assert NodeOk(s, n);
    SettledIsFree(s, n);
    HandStep(s, Step(s, Begin(t, n)), t, n, s.m.nodes[n].(place := InHand(t)), Accepting(n));
  }

  // ----- the dispatching threads -----

  lemma BeforeStopCore(s: State, t: nat, n: nat)
    requires Core(s) && t in s.c.disp && (s.c.disp[t] == Accepting(n) || s.c.disp[t] == ReadingStop(n))
    ensures Core(DispatchStep(s, t))
  {
    assert ThreadOk(s, t);
    assert NodeOk(s, n);
    var w := s.m.nodes[n];
    if s.c.disp[t] == Accepting(n) {
      HandStep(s, DispatchStep(s, t), t, n, w, ReadingStop(n));
    } else {
      HandStep(s, DispatchStep(s, t), t, n, w, if s.m.stop then Refusing(n) else Resetting(n));
    }
  }

  lemma RefuseCore(s: State, t: nat, n: nat)
    requires Core(s) && t in s.c.disp && s.c.disp[t] == Refusing(n)
    ensures Core(DispatchStep(s, t))
  {
    assert ThreadOk(s, t);
    assert NodeOk(s, n);
    HandStep(s, DispatchStep(s, t), t, n, s.m.nodes[n].(completion := Stopped, place := Free), Withdrawing);
  }

  lemma PrepareCore(s: State, t: nat, n: nat)
    requires Core(s) && t in s.c.disp
    requires s.c.disp[t] == Resetting(n) || s.c.disp[t] == Stamping(n) || s.c.disp[t] == Clearing(n)
    ensures Core(DispatchStep(s, t))
  {
    assert ThreadOk(s, t);
    assert NodeOk(s, n);
    var w := s.m.nodes[n];
    match s.c.disp[t] {
      case Resetting(_) => HandStep(s, DispatchStep(s, t), t, n, w.(completion := Pending), Stamping(n));
      case Stamping(_) => HandStep(s, DispatchStep(s, t), t, n, w.(accepted := true), Clearing(n));
      case Clearing(_) => HandStep(s, DispatchStep(s, t), t, n, w.(next := Null), Exchanging(n));
    }
  }

  lemma ExchangeEntry(s: State, t: nat, n: nat, k: nat)
    requires Core(s) && t in s.c.disp && s.c.disp[t] == Exchanging(n) && s.h.head <= k < |Exchange(s, t, n).h.log|
    ensures EntryOk(Exchange(s, t, n), k)
  {
    assert ThreadOk(s, t);
    if k < |s.h.log| { EntryAt(s, k); }
  }

  lemma ExchangeNode(s: State, t: nat, n: nat, m: nat)
    requires Core(s) && t in s.c.disp && s.c.disp[t] == Exchanging(n) && m in s.m.nodes
    ensures NodeOk(Exchange(s, t, n), m)
  {
    assert ThreadOk(s, t);
    assert NodeOk(s, m);
  }

  lemma ExchangeThread(s: State, t: nat, n: nat, u: nat)
    requires Core(s) && t in s.c.disp && s.c.disp[t] == Exchanging(n) && u in s.c.disp
    ensures ThreadOk(Exchange(s, t, n), u)
  {
    assert ThreadOk(s, t);
    assert ThreadOk(s, u);
  }

  lemma ExchangeCore(s: State, t: nat, n: nat)
    requires Core(s) && t in s.c.disp && s.c.disp[t] == Exchanging(n)
    ensures Core(Exchange(s, t, n))
  {
    var r := Exchange(s, t, n);
    assert ThreadOk(s, t);
    forall k: nat | r.h.head <= k < |r.h.log| ensures EntryOk(r, k) { ExchangeEntry(s, t, n, k); }
    forall m | m in r.m.nodes ensures NodeOk(r, m) { ExchangeNode(s, t, n, m); }
    forall u | u in r.c.disp ensures ThreadOk(r, u) { ExchangeThread(s, t, n, u); }
  }

  lemma LinkEntry(s: State, t: nat, prev: Ptr, n: nat, at: nat, k: nat)
    requires Core(s) && t in s.c.disp && s.c.disp[t] == Linking(prev, n, at) && s.h.head <= k < |s.h.log|
    ensures EntryOk(Link(s, t, prev, n, at), k)
  {
    assert ThreadOk(s, t);
    EntryAt(s, at);
    EntryAt(s, k);
  }

  lemma LinkNode(s: State, t: nat, prev: Ptr, n: nat, at: nat, m: nat)
    requires Core(s) && t in s.c.disp && s.c.disp[t] == Linking(prev, n, at) && m in s.m.nodes
    ensures NodeOk(Link(s, t, prev, n, at), m)
  {
    assert ThreadOk(s, t);
    EntryAt(s, at);
    assert NodeOk(s, m);
  }

  lemma LinkThread(s: State, t: nat, prev: Ptr, n: nat, at: nat, u: nat)
    requires Core(s) && t in s.c.disp && s.c.disp[t] == Linking(prev, n, at) && u in s.c.disp
    ensures ThreadOk(Link(s, t, prev, n, at), u)
  {
    assert ThreadOk(s, t);
    EntryAt(s, at);
    assert ThreadOk(s, u);
  }

  lemma LinkCore(s: State, t: nat, prev: Ptr, n: nat, at: nat)
    requires Core(s) && t in s.c.disp && s.c.disp[t] == Linking(prev, n, at)
    ensures Core(Link(s, t, prev, n, at))
  {
    var r := Link(s, t, prev, n, at);
    assert ThreadOk(s, t);
    EntryAt(s, at);
    forall k: nat | r.h.head <= k < |r.h.log| ensures EntryOk(r, k) { LinkEntry(s, t, prev, n, at, k); }
    forall m | m in r.m.nodes ensures NodeOk(r, m) { LinkNode(s, t, prev, n, at, m); }
    forall u | u in r.c.disp ensures ThreadOk(r, u) { LinkThread(s, t, prev, n, at, u); }
  }

  lemma DispatchCore(s: State, t: nat)
    requires Core(s) && t in s.c.disp
    ensures Core(DispatchStep(s, t))
  {
    match s.c.disp[t]
    case Accepting(n) => BeforeStopCore(s, t, n);
    case ReadingStop(n) => BeforeStopCore(s, t, n);
    case Refusing(n) => RefuseCore(s, t, n);
    case Withdrawing => QuietStep(s, DispatchStep(s, t), t);
    case Resetting(n) => PrepareCore(s, t, n);
    case Stamping(n) => PrepareCore(s, t, n);
    case Clearing(n) => PrepareCore(s, t, n);
    case Exchanging(n) => ExchangeCore(s, t, n);
    case Linking(prev, n, at) => LinkCore(s, t, prev, n, at);
    case Counting => QuietStep(s, DispatchStep(s, t), t);
    case Waking => QuietStep(s, DispatchStep(s, t), t);
  }

  // ----- the loop -----

  /** A loop step that touches no node and no link, between passes' takes. */
  ghost predicate LoopMove(s: State, r: State) {
    && Core(s) && r.m == s.m.(phase := r.m.phase, wake := r.m.wake, epoch := r.m.epoch)
    && r.c == Goto(s.c, r.c.loop) && r.h == s.h.(idleAt := r.h.idleAt)
    && !HasCurrent(s.c.loop) && !s.c.loop.LinkStub?
  }

  lemma LoopMoveCore(s: State, r: State)
    requires LoopMove(s, r) && Pass(r)
    ensures Core(r)
  {
    forall k: nat | r.h.head <= k < |r.h.log| ensures EntryOk(r, k) {
      EntryAt(s, k);
    }
    forall m | m in r.m.nodes ensures NodeOk(r, m) {
      assert NodeOk(s, m);
    }
    forall u | u in r.c.disp ensures ThreadOk(r, u) {
      assert ThreadOk(s, u);
    }
  }

  /** Where the tail stands tells the pass whether anything follows the walk. */
  lemma TailReadCore(s: State)
    requires Core(s) && s.c.loop.LoadTail?
    ensures Core(LoopStepOf(s))
  {
    EntryAt(s, s.h.head);
    EntryAt(s, |s.h.log| - 1);
    LoopMoveCore(s, LoopStepOf(s));
  }

  lemma LocalCore(s: State)
    requires Core(s)
    requires s.c.loop.MarkReanchor? || s.c.loop.LoadStop? || s.c.loop.MarkIdle? || s.c.loop.BumpIdle? || s.c.loop.LoadAccept?
             || s.c.loop.LoadDispatch? || s.c.loop.MarkExited? || s.c.loop.BumpExit? || s.c.loop.Ended?
             || s.c.loop.ConsumeWake? || s.c.loop.CheckWake? || s.c.loop.CheckStop? || s.c.loop.Parked?
    ensures Core(LoopStepOf(s))
  {
    LoopMoveCore(s, LoopStepOf(s));
  }

  lemma ClearStubCore(s: State)
    requires Core(s) && s.c.loop.ClearStub?
    ensures Core(LoopStepOf(s))
  {
    var r := LoopStepOf(s);
    forall k: nat | r.h.head <= k < |r.h.log| ensures EntryOk(r, k) {
      EntryAt(s, k);
    }
    forall m | m in r.m.nodes ensures NodeOk(r, m) {
      assert NodeOk(s, m);
    }
    forall u | u in r.c.disp ensures ThreadOk(r, u) {
      assert ThreadOk(s, u);
    }
    EntryAt(s, |s.h.log| - 1);
  }

  lemma AnchorTailEntry(s: State, k: nat)
    requires Core(s) && s.c.loop.ExchangeStub? && s.h.head <= k <= |s.h.log|
    ensures EntryOk(AnchorTail(s), k)
  {
    EntryAt(s, |s.h.log| - 1);
    if k < |s.h.log| { EntryAt(s, k); }
  }

  lemma AnchorTailNode(s: State, m: nat)
    requires Core(s) && s.c.loop.ExchangeStub? && m in s.m.nodes
    ensures NodeOk(AnchorTail(s), m)
  {
    EntryAt(s, |s.h.log| - 1);
    assert NodeOk(s, m);
  }

  lemma AnchorTailThread(s: State, u: nat)
    requires Core(s) && s.c.loop.ExchangeStub? && u in s.c.disp
    ensures ThreadOk(AnchorTail(s), u)
  {
    EntryAt(s, |s.h.log| - 1);
    assert ThreadOk(s, u);
  }

  lemma AnchorTailCore(s: State)
    requires Core(s) && s.c.loop.ExchangeStub?
    ensures Core(AnchorTail(s))
  {
    var r := AnchorTail(s);
    EntryAt(s, |s.h.log| - 1);
    forall k: nat | r.h.head <= k < |r.h.log| ensures EntryOk(r, k) { AnchorTailEntry(s, k); }
    forall m | m in r.m.nodes ensures NodeOk(r, m) { AnchorTailNode(s, m); }
    forall u | u in r.c.disp ensures ThreadOk(r, u) { AnchorTailThread(s, u); }
  }

  lemma LinkAnchorEntry(s: State, prev: Ptr, at: nat, k: nat)
    requires Core(s) && s.c.loop == LinkStub(prev, at) && s.h.head <= k < |s.h.log|
    ensures EntryOk(LinkAnchor(s, prev, at), k)
  {
    EntryAt(s, at);
    EntryAt(s, k);
  }

  lemma LinkAnchorNode(s: State, prev: Ptr, at: nat, m: nat)
    requires Core(s) && s.c.loop == LinkStub(prev, at) && m in s.m.nodes
    ensures NodeOk(LinkAnchor(s, prev, at), m)
  {
    EntryAt(s, at);
    assert NodeOk(s, m);
  }

  lemma LinkAnchorThread(s: State, prev: Ptr, at: nat, u: nat)
    requires Core(s) && s.c.loop == LinkStub(prev, at) && u in s.c.disp
    ensures ThreadOk(LinkAnchor(s, prev, at), u)
  {
    EntryAt(s, at);
    assert ThreadOk(s, u);
  }

  lemma LinkAnchorCore(s: State, prev: Ptr, at: nat)
    requires Core(s) && s.c.loop == LinkStub(prev, at)
    ensures Core(LinkAnchor(s, prev, at))
  {
    var r := LinkAnchor(s, prev, at);
    EntryAt(s, at);
    forall k: nat | r.h.head <= k < |r.h.log| ensures EntryOk(r, k) { LinkAnchorEntry(s, prev, at, k); }
    forall m | m in r.m.nodes ensures NodeOk(r, m) { LinkAnchorNode(s, prev, at, m); }
    forall u | u in r.c.disp ensures ThreadOk(r, u) { LinkAnchorThread(s, prev, at, u); }
  }

  lemma TakeEntry(s: State, n: nat, k: nat)
    requires Core(s) && s.c.loop.LoadNext? && NextOf(s, s.c.walk) != Null && s.c.walk == Node(n) && s.h.head < k < |s.h.log|
    ensures EntryOk(Take(s, n), k)
  {
    EntryAt(s, s.h.head);
    EntryAt(s, k);
  }

  lemma TakeNode(s: State, n: nat, m: nat)
    requires Core(s) && s.c.loop.LoadNext? && NextOf(s, s.c.walk) != Null && s.c.walk == Node(n) && m in s.m.nodes
    ensures NodeOk(Take(s, n), m)
  {
    EntryAt(s, s.h.head);
    assert NodeOk(s, m);
  }

  lemma TakeThread(s: State, n: nat, u: nat)
    requires Core(s) && s.c.loop.LoadNext? && NextOf(s, s.c.walk) != Null && s.c.walk == Node(n) && u in s.c.disp
    ensures ThreadOk(Take(s, n), u)
  {
    EntryAt(s, s.h.head);
    assert ThreadOk(s, u);
  }

  lemma TakeCore(s: State, n: nat)
    requires Core(s) && s.c.loop.LoadNext? && NextOf(s, s.c.walk) != Null && s.c.walk == Node(n)
    ensures Core(Take(s, n))
  {
    var r := Take(s, n);
    EntryAt(s, s.h.head);
    forall k: nat | r.h.head <= k < |r.h.log| ensures EntryOk(r, k) { TakeEntry(s, n, k); }
    forall m | m in r.m.nodes ensures NodeOk(r, m) { TakeNode(s, n, m); }
    forall u | u in r.c.disp ensures ThreadOk(r, u) { TakeThread(s, n, u); }
  }

  lemma PassSentinelEntry(s: State, k: nat)
    requires Core(s) && s.c.loop.LoadNext? && NextOf(s, s.c.walk) != Null && s.c.walk == Stub && s.h.head < k < |s.h.log|
    ensures EntryOk(PassSentinel(s), k)
  {
    EntryAt(s, s.h.head);
    EntryAt(s, k);
  }

  lemma PassSentinelNode(s: State, m: nat)
    requires Core(s) && s.c.loop.LoadNext? && NextOf(s, s.c.walk) != Null && s.c.walk == Stub && m in s.m.nodes
    ensures NodeOk(PassSentinel(s), m)
  {
    EntryAt(s, s.h.head);
    assert NodeOk(s, m);
  }

  lemma PassSentinelThread(s: State, u: nat)
    requires Core(s) && s.c.loop.LoadNext? && NextOf(s, s.c.walk) != Null && s.c.walk == Stub && u in s.c.disp
    ensures ThreadOk(PassSentinel(s), u)
  {
    EntryAt(s, s.h.head);
    assert ThreadOk(s, u);
  }

  lemma PassSentinelCore(s: State)
    requires Core(s) && s.c.loop.LoadNext? && NextOf(s, s.c.walk) != Null && s.c.walk == Stub
    ensures Core(PassSentinel(s))
  {
    var r := PassSentinel(s);
    EntryAt(s, s.h.head);
    forall k: nat | r.h.head <= k < |r.h.log| ensures EntryOk(r, k) { PassSentinelEntry(s, k); }
    forall m | m in r.m.nodes ensures NodeOk(r, m) { PassSentinelNode(s, m); }
    forall u | u in r.c.disp ensures ThreadOk(r, u) { PassSentinelThread(s, u); }
  }

  /** The loop's own node moves on, or is let go. */
  ghost predicate CurrentMove(s: State, r: State, n: nat, w: NodeWords) {
    && Core(s) && CurrentOk(s, n) && RunsNode(s.c.loop, n)
    && r.m == s.m.(nodes := s.m.nodes[n := w], phase := r.m.phase)
    && r.c == Goto(s.c, r.c.loop) && r.h == s.h.(ran := r.h.ran)
  }

  lemma CurrentStep(s: State, r: State, n: nat, w: NodeWords)
    requires CurrentMove(s, r, n, w) && NodeOk(r, n) && Pass(r)
    ensures Core(r)
  {
    forall k: nat | r.h.head <= k < |r.h.log| ensures EntryOk(r, k) {
      EntryAt(s, k);
    }
    forall m | m in r.m.nodes ensures NodeOk(r, m) {
      assert NodeOk(s, m);
    }
    forall u | u in r.c.disp ensures ThreadOk(r, u) {
      assert ThreadOk(s, u);
    }
  }

  lemma RunningCore(s: State, n: nat)
    requires Core(s) && (s.c.loop == MarkWorking(n) || s.c.loop == MarkRunning(n) || s.c.loop == RunItem(n))
    ensures Core(LoopStepOf(s))
  {
    assert NodeOk(s, n);
    var w := s.m.nodes[n];
    CurrentStep(s, LoopStepOf(s), n, if s.c.loop == MarkRunning(n) then w.(completion := Running) else w);
  }

  lemma FinishCore(s: State, n: nat)
    requires Core(s) && s.c.loop == MarkDone(n)
    ensures Core(LoopStepOf(s))
  {
    assert NodeOk(s, n);
    CurrentStep(s, LoopStepOf(s), n, s.m.nodes[n].(completion := Done, place := Free));
  }

  lemma DecideCore(s: State, tail: Ptr)
    requires Core(s) && s.c.loop == LoadNext(tail)
    ensures Core(Decide(s, tail))
  {
    EntryAt(s, s.h.head);
    var next := NextOf(s, s.c.walk);
    match WalkStepOf(next != Null, tail == s.c.walk, s.c.walk == Stub)
    case TakeNode => if s.c.walk.Node? { TakeCore(s, s.c.walk.id); } else { PassSentinelCore(s); }
    case Reanchor => LoopMoveCore(s, s.(c := Goto(s.c, MarkReanchor)));
    case _ => LoopMoveCore(s, s.(c := Goto(s.c, LoadStop)));
  }

  lemma LoopCore(s: State)
    requires Core(s)
    ensures Core(LoopStepOf(s))
  {
    match s.c.loop
    case LoadTail => TailReadCore(s);
    case LoadNext(tail) => DecideCore(s, tail);
    case ClearStub => ClearStubCore(s);
    case ExchangeStub => AnchorTailCore(s);
    case LinkStub(prev, at) => LinkAnchorCore(s, prev, at);
    case MarkWorking(n) => RunningCore(s, n);
    case MarkRunning(n) => RunningCore(s, n);
    case RunItem(n) => RunningCore(s, n);
    case MarkDone(n) => FinishCore(s, n);
    case _ => LocalCore(s);
  }

  lemma StepCore(s: State, a: Action)
    requires Core(s) && Enabled(s, a)
    ensures Core(Step(s, a))
  {
    match a
    case Construct(n) => ConstructCore(s, n);
    case Destroy(n) => DestroyCore(s, n);
    case Begin(t, n) => BeginCore(s, t, n);
    case Dispatch(t) => DispatchCore(s, t);
    case LoopStep => LoopCore(s);
    case _ => ElsewhereStep(s, Step(s, a));
  }
}
