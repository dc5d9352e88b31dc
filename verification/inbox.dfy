/**
 The inbox of one execution context, as a step system.

 Every atomic access of `dispatchNode`, `runContextLoop`, `reAnchorSentinel`,
 `waitInboxEmpty`, `requestStop` and `drain` is one step, and the steps of any
 number of threads interleave in any order (sequential consistency). A step
 performs exactly one shared access; thread-local moves ride with it.

 What is marked "history" is never read by a guard or written into a shared word:
 it records what happened, so that theorems can speak about it.
 */
module Inbox {

  // ----- words -----

  datatype Ptr = Null | Stub | Node(id: nat)

  datatype Completion = Pending | Running | Done | Stopped

  /** History: where a node stands. `InHand(t)`: in thread t's dispatch, before its
      tail exchange; `InChain(k)`: exchanged at log position k and not taken;
      `AtLoop`: taken and not yet marked DONE; `Free`: the caller's. */
  datatype Place = Free | InHand(t: nat) | InChain(k: nat) | AtLoop

  /** The words of one caller-owned work node; `place` is history. */
  datatype NodeWords = NodeWords(next: Ptr, completion: Completion, accepted: bool, place: Place)

  datatype Phase = Working | Idle | Exited

  datatype WaitMode = Spin | Yield | Block

  // ----- the pure decision tables -----

  datatype WalkStep = TakeNode | LinkOwed | Empty | Reanchor

  /** `walkStep`: what one pass does, from its two reads and the walk's position. */
  function WalkStepOf(linkPublished: bool, tailAtWalk: bool, walkAtSentinel: bool): WalkStep {
    if linkPublished then TakeNode
    else if !tailAtWalk then LinkOwed
    else if walkAtSentinel then Empty
    else Reanchor
  }

  predicate CountsSettled(accepted: int, dispatched: int) {
    accepted == dispatched
  }

  predicate LoopEnds(stopRequested: bool, accepted: int, dispatched: int) {
    stopRequested && CountsSettled(accepted, dispatched)
  }

  predicate InboxIdle(tailAtSentinel: bool, working: bool, accepted: int, dispatched: int) {
    tailAtSentinel && !working && CountsSettled(accepted, dispatched)
  }

  // ----- program counters: each names the next shared access -----

  /** `dispatchNode`. `at` is history: the log position the link will close. */
  datatype Dispatcher =
    | Accepting(n: nat)                      // acceptCount.fetch_add
    | ReadingStop(n: nat)                    // stopRequested.load
    | Refusing(n: nat)                       // completion.store(STOPPED)
    | Withdrawing                            // acceptCount.fetch_sub
    | Resetting(n: nat)                      // completion.store(PENDING)
    | Stamping(n: nat)                       // accepted = true
    | Clearing(n: nat)                       // next.store(nullptr)
    | Exchanging(n: nat)                     // exchangeTail.exchange
    | Linking(prev: Ptr, n: nat, at: nat)    // previous->next.store
    | Counting                               // dispatchCount.fetch_add
    | Waking                                 // wakeFlag.store(true), notify

  /** `runContextLoop`, with `reAnchorSentinel` and `waitInboxEmpty` inlined. */
  datatype Loop =
    | LoadTail
    | LoadNext(tail: Ptr)
    | MarkReanchor                           // phase.store(WORKING)
    | ClearStub                              // stub.next.store(nullptr)
    | ExchangeStub                           // exchangeTail.exchange(&stub)
    | LinkStub(prev: Ptr, at: nat)           // previous->next.store(&stub)
    | MarkWorking(n: nat)                    // phase.store(WORKING)
    | MarkRunning(n: nat)                    // completion.store(RUNNING)
    | RunItem(n: nat)                        // node->run
    | MarkDone(n: nat)                       // completion.store(DONE)
    | LoadStop
    | MarkIdle                               // phase.store(IDLE)
    | BumpIdle                               // idleEpoch.fetch_add
    | LoadAccept(stopped: bool)
    | LoadDispatch(stopped: bool, accepted: int)
    | MarkExited                             // phase.store(EXITED)
    | BumpExit                               // idleEpoch.fetch_add
    | Ended
    | ConsumeWake                            // wakeFlag.exchange(false)
    | CheckWake                              // waitInboxEmpty: wakeFlag.load
    | CheckStop                              // waitInboxEmpty: stopRequested.load
    | Parked                                 // one hint, yield or atomic wait

  /** `drain`. `mark` is history: the log length at the tail read. */
  datatype Drainer =
    | LoadEpoch
    | ReadTail(epoch: nat)
    | ReadPhase(epoch: nat, tailAtStub: bool, mark: nat)
    | ReadAccept(epoch: nat, tailAtStub: bool, working: bool, mark: nat)
    | ReadDispatch(epoch: nat, tailAtStub: bool, working: bool, accepted: int, mark: nat)
    | WaitEpoch(epoch: nat)
    | Returned(mark: nat)

  // ----- history vocabulary -----

  /** One exchange of the tail: the loop's sentinel, or a thread's node. */
  datatype Entry = Anchor | Item(thread: nat, id: nat)

  function PtrOf(e: Entry): Ptr {
    if e.Anchor? then Stub else Node(e.id)
  }

  /** Who still owes the link behind a log position. */
  datatype Owner = Producer(thread: nat) | LoopThread

  type Memory = map<nat, NodeWords>

  /** The shared words of the context. */
  datatype Shared = Shared(
    nodes: Memory,
    stubNext: Ptr,
    tail: Ptr,
    wake: bool,
    stop: bool,
    phase: Phase,
    epoch: nat,
    acceptCount: int,
    dispatchCount: int
  )

  /** Where every thread stands. */
  datatype Control = Control(
    mode: WaitMode,
    walk: Ptr,
    loop: Loop,
    disp: map<nat, Dispatcher>,
    stoppers: nat,               // requestStop calls that still owe their wake store
    drains: map<nat, Drainer>
  )

  /** What happened so far. */
  datatype History = History(
    log: seq<Entry>,             // every tail exchange, in order; the initial sentinel first
    head: nat,                   // the log position the walk stands on
    owed: map<nat, Owner>,       // the log positions whose link is not published
    calls: seq<(nat, nat)>,      // accepted dispatches (thread, node), by their stop read
    ran: seq<nat>,               // executed nodes, in order
    anchor: nat,                 // the last sentinel position in the log
    idleAt: nat                  // the walk's position at the last IDLE or EXITED store
  )

  datatype State = State(m: Shared, c: Control, h: History)

  function Init(mode: WaitMode): State {
    State(Shared(map[], Null, Stub, false, false, Working, 0, 0, 0),
          Control(mode, Stub, LoadTail, map[], 0, map[]),
          History([Anchor], 0, map[], [], [], 0, 0))
  }

  // ----- shared memory -----

  /** The link of a node; a pointer to no live node reads as null, and
      `AccessesAreLive` proves that no reachable step reads one. */
  function NextOf(s: State, p: Ptr): Ptr {
    match p
    case Null => Null
    case Stub => s.m.stubNext
    case Node(id) => if id in s.m.nodes then s.m.nodes[id].next else Null
  }

  function SetNext(nodes: Memory, p: Ptr, v: Ptr): Memory {
    if p.Node? && p.id in nodes then nodes[p.id := nodes[p.id].(next := v)] else nodes
  }

  function SetCompletion(nodes: Memory, id: nat, c: Completion): Memory {
    if id in nodes then nodes[id := nodes[id].(completion := c)] else nodes
  }

  function SetAccepted(nodes: Memory, id: nat): Memory {
    if id in nodes then nodes[id := nodes[id].(accepted := true)] else nodes
  }

  function SetPlace(nodes: Memory, id: nat, p: Place): Memory {
    if id in nodes then nodes[id := nodes[id].(place := p)] else nodes
  }

  /** The node a dispatch still owns alone, before its tail exchange. */
  predicate Holds(d: Dispatcher, n: nat) {
    match d
    case Accepting(m) => m == n
    case ReadingStop(m) => m == n
    case Refusing(m) => m == n
    case Resetting(m) => m == n
    case Stamping(m) => m == n
    case Clearing(m) => m == n
    case Exchanging(m) => m == n
    case _ => false
  }

  predicate Held(s: State, n: nat) {
    exists t | t in s.c.disp :: Holds(s.c.disp[t], n)
  }

  // ----- steps -----

  datatype Action =
    | Construct(n: nat)          // a caller builds a node
    | Destroy(n: nat)            // ~WorkNode
    | Begin(t: nat, n: nat)      // thread t calls dispatch on node n
    | Dispatch(t: nat)           // the next access of t's dispatch
    | RequestStop                // stopRequested.store(true)
    | StopWake                   // the wake of a requestStop
    | LoopStep                   // the next access of the loop
    | BeginDrain(t: nat)
    | DrainStep(t: nat)
    | LeaveDrain(t: nat)

  /** A step's guard: the caller's contract, or the wait the step stands in. */
  predicate Enabled(s: State, a: Action) {
    match a
    case Construct(n) => n !in s.m.nodes
    // FR-012 of the node destructor, on a node no call is being made with
    case Destroy(n) =>
      n in s.m.nodes && !Held(s, n) &&
      (s.m.nodes[n].completion == Done || s.m.nodes[n].completion == Stopped || !s.m.nodes[n].accepted)
    // FR-009: the node stands in no queue and no other dispatch owns it
    case Begin(t, n) =>
      t !in s.c.disp && n in s.m.nodes && !Held(s, n) &&
      s.m.nodes[n].completion != Running && (s.m.nodes[n].completion != Pending || !s.m.nodes[n].accepted)
    case Dispatch(t) => t in s.c.disp
    case RequestStop => true
    case StopWake => s.c.stoppers > 0
    case LoopStep => s.c.loop != Ended && (s.c.loop == Parked ==> s.c.mode != Block || s.m.wake)
    case BeginDrain(t) => t !in s.c.drains
    case DrainStep(t) =>
      t in s.c.drains && !s.c.drains[t].Returned? &&
      (s.c.drains[t].WaitEpoch? ==> s.m.epoch != s.c.drains[t].epoch)
    case LeaveDrain(t) => t in s.c.drains && s.c.drains[t].Returned?
  }

  function Step(s: State, a: Action): State
    requires Enabled(s, a)
  {
    match a
    case Construct(n) => s.(m := s.m.(nodes := s.m.nodes[n := NodeWords(Null, Pending, false, Free)]))
    case Destroy(n) => s.(m := s.m.(nodes := s.m.nodes - {n}))
    case Begin(t, n) => s.(m := s.m.(nodes := SetPlace(s.m.nodes, n, InHand(t))), c := Turn(s.c, t, Accepting(n)))
    case Dispatch(t) => DispatchStep(s, t)
    case RequestStop => s.(m := s.m.(stop := true), c := s.c.(stoppers := s.c.stoppers + 1))
    case StopWake => s.(m := s.m.(wake := true), c := s.c.(stoppers := s.c.stoppers - 1))
    case LoopStep => LoopStepOf(s)
    case BeginDrain(t) => s.(c := s.c.(drains := s.c.drains[t := LoadEpoch]))
    case DrainStep(t) => s.(c := s.c.(drains := s.c.drains[t := DrainNext(s, s.c.drains[t])]))
    case LeaveDrain(t) => s.(c := s.c.(drains := s.c.drains - {t}))
  }

  // ----- the accesses of one dispatch -----

  function Turn(c: Control, t: nat, d: Dispatcher): Control {
    c.(disp := c.disp[t := d])
  }

  function Leave(c: Control, t: nat): Control {
    c.(disp := c.disp - {t})
  }

  function DispatchStep(s: State, t: nat): State
    requires t in s.c.disp
  {
    match s.c.disp[t]
    case Accepting(n) => s.(m := s.m.(acceptCount := s.m.acceptCount + 1), c := Turn(s.c, t, ReadingStop(n)))
    case ReadingStop(n) =>
      if s.m.stop then s.(c := Turn(s.c, t, Refusing(n)))
      else s.(c := Turn(s.c, t, Resetting(n)), h := s.h.(calls := s.h.calls + [(t, n)]))
    case Refusing(n) =>
      s.(m := s.m.(nodes := SetPlace(SetCompletion(s.m.nodes, n, Stopped), n, Free)), c := Turn(s.c, t, Withdrawing))
    case Withdrawing => s.(m := s.m.(acceptCount := s.m.acceptCount - 1), c := Leave(s.c, t))
    case Resetting(n) =>
      s.(m := s.m.(nodes := SetCompletion(s.m.nodes, n, Pending)), c := Turn(s.c, t, Stamping(n)))
    case Stamping(n) => s.(m := s.m.(nodes := SetAccepted(s.m.nodes, n)), c := Turn(s.c, t, Clearing(n)))
    case Clearing(n) => s.(m := s.m.(nodes := SetNext(s.m.nodes, Node(n), Null)), c := Turn(s.c, t, Exchanging(n)))
    case Exchanging(n) => Exchange(s, t, n)
    case Linking(prev, n, at) => Link(s, t, prev, n, at)
    case Counting => s.(m := s.m.(dispatchCount := s.m.dispatchCount + 1), c := Turn(s.c, t, Waking))
    case Waking => s.(m := s.m.(wake := true), c := Leave(s.c, t))
  }

  /** The link-swap's first half: the node becomes the tail. */
  function Exchange(s: State, t: nat, n: nat): State {
    var at := if |s.h.log| > 0 then |s.h.log| - 1 else 0;
    s.(m := s.m.(tail := Node(n), nodes := SetPlace(s.m.nodes, n, InChain(|s.h.log|))),
       c := Turn(s.c, t, Linking(s.m.tail, n, at)),
       h := s.h.(log := s.h.log + [Item(t, n)], owed := s.h.owed[at := Producer(t)]))
  }

  /** The link-swap's second half: the predecessor's link is published. */
  function Link(s: State, t: nat, prev: Ptr, n: nat, at: nat): State {
    s.(m := s.m.(nodes := SetNext(s.m.nodes, prev, Node(n)),
                 stubNext := if prev == Stub then Node(n) else s.m.stubNext),
       c := Turn(s.c, t, Counting), h := s.h.(owed := s.h.owed - {at}))
  }

  // ----- the accesses of the loop -----

  function Goto(c: Control, l: Loop): Control {
    c.(loop := l)
  }

  function LoopStepOf(s: State): State {
    match s.c.loop
    case LoadTail => s.(c := Goto(s.c, LoadNext(s.m.tail)))
    case LoadNext(tail) => Decide(s, tail)
    case MarkReanchor => s.(m := s.m.(phase := Working), c := Goto(s.c, ClearStub))
    case ClearStub => s.(m := s.m.(stubNext := Null), c := Goto(s.c, ExchangeStub))
    case ExchangeStub => AnchorTail(s)
    case LinkStub(prev, at) => LinkAnchor(s, prev, at)
    case MarkWorking(n) => s.(m := s.m.(phase := Working), c := Goto(s.c, MarkRunning(n)))
    case MarkRunning(n) => s.(m := s.m.(nodes := SetCompletion(s.m.nodes, n, Running)), c := Goto(s.c, RunItem(n)))
    case RunItem(n) => s.(c := Goto(s.c, MarkDone(n)), h := s.h.(ran := s.h.ran + [n]))
    case MarkDone(n) =>
      s.(m := s.m.(nodes := SetPlace(SetCompletion(s.m.nodes, n, Done), n, Free)), c := Goto(s.c, LoadTail))
    case LoadStop => s.(c := Goto(s.c, if s.m.stop then LoadAccept(true) else MarkIdle))
    case MarkIdle => s.(m := s.m.(phase := Idle), c := Goto(s.c, BumpIdle), h := s.h.(idleAt := s.h.head))
    case BumpIdle => s.(m := s.m.(epoch := s.m.epoch + 1), c := Goto(s.c, LoadAccept(false)))
    case LoadAccept(stopped) => s.(c := Goto(s.c, LoadDispatch(stopped, s.m.acceptCount)))
    case LoadDispatch(stopped, accepted) =>
      s.(c := Goto(s.c, if LoopEnds(stopped, accepted, s.m.dispatchCount) then MarkExited else ConsumeWake))
    case MarkExited => s.(m := s.m.(phase := Exited), c := Goto(s.c, BumpExit), h := s.h.(idleAt := s.h.head))
    case BumpExit => s.(m := s.m.(epoch := s.m.epoch + 1), c := Goto(s.c, Ended))
    case Ended => s
    case ConsumeWake => s.(m := s.m.(wake := false), c := Goto(s.c, if s.m.wake then LoadTail else CheckWake))
    case CheckWake => s.(c := Goto(s.c, if s.m.wake then LoadTail else CheckStop))
    case CheckStop => s.(c := Goto(s.c, if s.m.stop then LoadTail else Parked))
    case Parked => s.(c := Goto(s.c, CheckWake))
  }

  /** The link read of one pass, and what the pass decides from it. */
  function Decide(s: State, tail: Ptr): State {
    match WalkStepOf(NextOf(s, s.c.walk) != Null, tail == s.c.walk, s.c.walk == Stub)
    case TakeNode => if s.c.walk.Node? then Take(s, s.c.walk.id) else PassSentinel(s)
    case Reanchor => s.(c := Goto(s.c, MarkReanchor))
    case _ => s.(c := Goto(s.c, LoadStop))
  }

  function Take(s: State, n: nat): State {
    s.(m := s.m.(nodes := SetPlace(s.m.nodes, n, AtLoop)),
       c := s.c.(walk := NextOf(s, s.c.walk), loop := MarkWorking(n)), h := s.h.(head := s.h.head + 1))
  }

  function PassSentinel(s: State): State {
    s.(c := s.c.(walk := NextOf(s, s.c.walk), loop := LoadTail), h := s.h.(head := s.h.head + 1))
  }

  /** `reAnchorSentinel`: the sentinel becomes the tail again. */
  function AnchorTail(s: State): State {
    var at := if |s.h.log| > 0 then |s.h.log| - 1 else 0;
    s.(m := s.m.(tail := Stub), c := Goto(s.c, LinkStub(s.m.tail, at)),
       h := s.h.(log := s.h.log + [Anchor], owed := s.h.owed[at := LoopThread], anchor := |s.h.log|))
  }

  function LinkAnchor(s: State, prev: Ptr, at: nat): State {
    s.(m := s.m.(nodes := SetNext(s.m.nodes, prev, Stub), stubNext := if prev == Stub then Stub else s.m.stubNext),
       c := Goto(s.c, LoadTail), h := s.h.(owed := s.h.owed - {at}))
  }

  function DrainNext(s: State, d: Drainer): Drainer {
    match d
    case LoadEpoch => ReadTail(s.m.epoch)
    case ReadTail(e) => ReadPhase(e, s.m.tail == Stub, |s.h.log|)
    case ReadPhase(e, atStub, mark) => ReadAccept(e, atStub, s.m.phase == Working, mark)
    case ReadAccept(e, atStub, working, mark) => ReadDispatch(e, atStub, working, s.m.acceptCount, mark)
    case ReadDispatch(e, atStub, working, accepted, mark) =>
      if InboxIdle(atStub, working, accepted, s.m.dispatchCount) then Returned(mark) else WaitEpoch(e)
    case WaitEpoch(_) => LoadEpoch
    case Returned(_) => d
  }

  // ----- runs -----

  ghost predicate Legal(s: State, run: seq<Action>)
    decreases |run|
  {
    run == [] || (Enabled(s, run[0]) && Legal(Step(s, run[0]), run[1..]))
  }

  ghost function After(s: State, run: seq<Action>): State
    requires Legal(s, run)
    decreases |run|
  {
    if run == [] then s else After(Step(s, run[0]), run[1..])
  }

  // ----- derived views -----

  /** The node the loop has taken and not yet marked DONE. */
  predicate RunsNode(l: Loop, n: nat) {
    match l
    case MarkWorking(m) => m == n
    case MarkRunning(m) => m == n
    case RunItem(m) => m == n
    case MarkDone(m) => m == n
    case _ => false
  }

  predicate HasCurrent(l: Loop) {
    l.MarkWorking? || l.MarkRunning? || l.RunItem? || l.MarkDone?
  }

  /** The log positions below this one are fully processed: their nodes are DONE. */
  function SettledTo(s: State): int {
    if HasCurrent(s.c.loop) then s.h.head - 1 else s.h.head
  }

  /** The nodes of a stretch of the log, sentinels removed. */
  function Items(log: seq<Entry>): seq<nat>
    decreases |log|
  {
    if log == [] then []
    else
      var rest := Items(log[..|log| - 1]);
      var e := log[|log| - 1];
      if e.Item? then rest + [e.id] else rest
  }

  /** The nodes one thread exchanged, in order. */
  function ItemsBy(log: seq<Entry>, t: nat): seq<nat>
    decreases |log|
  {
    if log == [] then []
    else
      var rest := ItemsBy(log[..|log| - 1], t);
      var e := log[|log| - 1];
      if e.Item? && e.thread == t then rest + [e.id] else rest
  }

  /** The nodes of one thread's accepted dispatches, in call order. */
  function CallsBy(calls: seq<(nat, nat)>, t: nat): seq<nat>
    decreases |calls|
  {
    if calls == [] then []
    else
      var rest := CallsBy(calls[..|calls| - 1], t);
      var c := calls[|calls| - 1];
      if c.0 == t then rest + [c.1] else rest
  }

  /** Between its accept and its link count or withdrawal. */
  predicate InWindow(d: Dispatcher) {
    !d.Accepting? && !d.Waking?
  }

  /** Accepted: read the open inbox, and owes its link count. */
  predicate OwesLink(d: Dispatcher) {
    d.Resetting? || d.Stamping? || d.Clearing? || d.Exchanging? || d.Linking? || d.Counting?
  }

  /** Past its tail exchange, and owes its wake store. */
  predicate OwesWake(d: Dispatcher) {
    d.Linking? || d.Counting? || d.Waking?
  }

  function Window(s: State): set<nat> {
    set t | t in s.c.disp && InWindow(s.c.disp[t])
  }

  function LinkOwers(s: State): set<nat> {
    set t | t in s.c.disp && OwesLink(s.c.disp[t])
  }

  function WakeOwers(s: State): set<nat> {
    set t | t in s.c.disp && OwesWake(s.c.disp[t])
  }
}
