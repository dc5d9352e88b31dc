/** Every step of the inbox keeps the log, the counts, the idle mark and the wake. */
module InboxHistory {
  import opened Inbox
  import opened InboxInvariant
  import opened InboxSteps

  // ----- the log -----

  lemma ItemsSnoc(log: seq<Entry>, e: Entry)
    ensures Items(log + [e]) == Items(log) + if e.Item? then [e.id] else []
  {
    assert (log + [e])[..|log|] == log;
  }

  lemma ItemsBySnoc(log: seq<Entry>, e: Entry, t: nat)
    ensures ItemsBy(log + [e], t) == ItemsBy(log, t) + if e.Item? && e.thread == t then [e.id] else []
  {
    assert (log + [e])[..|log|] == log;
  }

  lemma CallsBySnoc(calls: seq<(nat, nat)>, c: (nat, nat), t: nat)
    ensures CallsBy(calls + [c], t) == CallsBy(calls, t) + if c.0 == t then [c.1] else []
  {
    assert (calls + [c])[..|calls|] == calls;
  }

  // ----- a dispatch step, seen from the log and the counts -----

  ghost predicate DispatchFrame(s: State, r: State, t: nat)
    requires t in s.c.disp
  {
    && r.h.head == s.h.head && r.h.ran == s.h.ran && r.c.loop == s.c.loop && r.h.anchor == s.h.anchor && r.c.walk == s.c.walk
    && r.m.phase == s.m.phase && r.h.idleAt == s.h.idleAt && r.m.stop == s.m.stop && r.c.stoppers == s.c.stoppers
    && r.c.drains == s.c.drains
    && r.h.log == (if s.c.disp[t].Exchanging? then s.h.log + [Item(t, s.c.disp[t].n)] else s.h.log)
    && (forall u :: u != t ==> (u in r.c.disp <==> u in s.c.disp) && (u in s.c.disp ==> r.c.disp[u] == s.c.disp[u]))
  }

  ghost predicate DispatchMoves(s: State, r: State, t: nat)
    requires t in s.c.disp
  {
    match s.c.disp[t]
    case Accepting(n) => t in r.c.disp && r.c.disp[t] == ReadingStop(n)
    case ReadingStop(n) => t in r.c.disp && r.c.disp[t] == if s.m.stop then Refusing(n) else Resetting(n)
    case Refusing(n) => t in r.c.disp && r.c.disp[t] == Withdrawing
    case Withdrawing => t !in r.c.disp
    case Resetting(n) => t in r.c.disp && r.c.disp[t] == Stamping(n)
    case Stamping(n) => t in r.c.disp && r.c.disp[t] == Clearing(n)
    case Clearing(n) => t in r.c.disp && r.c.disp[t] == Exchanging(n)
    case Exchanging(n) => t in r.c.disp && r.c.disp[t].Linking?
    case Linking(_, _, _) => t in r.c.disp && r.c.disp[t] == Counting
    case Counting => t in r.c.disp && r.c.disp[t] == Waking
    case Waking => t !in r.c.disp
  }

  ghost predicate DispatchCounts(s: State, r: State, t: nat)
    requires t in s.c.disp
  {
    && r.h.calls == (if s.c.disp[t].ReadingStop? && !s.m.stop then s.h.calls + [(t, s.c.disp[t].n)] else s.h.calls)
    && r.m.acceptCount == s.m.acceptCount + (if s.c.disp[t].Accepting? then 1 else if s.c.disp[t].Withdrawing? then -1 else 0)
    && r.m.dispatchCount == s.m.dispatchCount + (if s.c.disp[t].Counting? then 1 else 0)
    && r.m.wake == (s.m.wake || s.c.disp[t].Waking?)
    && (!s.c.disp[t].Exchanging? ==> r.m.tail == s.m.tail)
  }

  lemma DispatchEffect(s: State, t: nat)
    requires t in s.c.disp
    ensures DispatchFrame(s, DispatchStep(s, t), t)
    ensures DispatchMoves(s, DispatchStep(s, t), t)
    ensures DispatchCounts(s, DispatchStep(s, t), t)
  {
  }

  lemma LoggedDispatch(s: State, r: State, t: nat)
    requires t in s.c.disp && DispatchFrame(s, r, t) && Logged(s)
    ensures Logged(r)
  {
    assert r.h.log[..s.h.head] == s.h.log[..s.h.head];
  }

  lemma CallOrderOfAnother(s: State, r: State, t: nat, u: nat)
    requires t in s.c.disp && DispatchFrame(s, r, t) && DispatchMoves(s, r, t) && DispatchCounts(s, r, t)
    requires CallOrderOf(s, u) && u != t
    ensures CallOrderOf(r, u)
  {
    CallsBySnoc(s.h.calls, (t, if s.c.disp[t].ReadingStop? then s.c.disp[t].n else 0), u);
    ItemsBySnoc(s.h.log, Item(t, if s.c.disp[t].Exchanging? then s.c.disp[t].n else 0), u);
  }

  lemma AcceptingOrdersCalls(s: State, r: State, t: nat)
    requires t in s.c.disp && DispatchFrame(s, r, t) && DispatchMoves(s, r, t) && DispatchCounts(s, r, t)
    requires CallOrderOf(s, t) && s.c.disp[t].ReadingStop? && !s.m.stop
    ensures CallOrderOf(r, t)
  {
    CallsBySnoc(s.h.calls, (t, s.c.disp[t].n), t);
  }

  lemma ExchangeOrdersCalls(s: State, r: State, t: nat)
    requires t in s.c.disp && DispatchFrame(s, r, t) && DispatchMoves(s, r, t) && DispatchCounts(s, r, t)
    requires CallOrderOf(s, t) && s.c.disp[t].Exchanging?
    ensures CallOrderOf(r, t)
  {
    ItemsBySnoc(s.h.log, Item(t, s.c.disp[t].n), t);
  }

  lemma OtherAccessKeepsCalls(s: State, r: State, t: nat)
    requires t in s.c.disp && DispatchFrame(s, r, t) && DispatchMoves(s, r, t) && DispatchCounts(s, r, t)
    requires CallOrderOf(s, t) && !s.c.disp[t].Exchanging? && !(s.c.disp[t].ReadingStop? && !s.m.stop)
    ensures CallOrderOf(r, t)
  {
    assert r.h.calls == s.h.calls && ItemsBy(r.h.log, t) == ItemsBy(s.h.log, t);
  }

  lemma CallOrderOfItself(s: State, r: State, t: nat)
    requires t in s.c.disp && DispatchFrame(s, r, t) && DispatchMoves(s, r, t) && DispatchCounts(s, r, t)
    requires CallOrderOf(s, t)
    ensures CallOrderOf(r, t)
  {
    if s.c.disp[t].ReadingStop? && !s.m.stop {
      AcceptingOrdersCalls(s, r, t);
    } else if s.c.disp[t].Exchanging? {
      ExchangeOrdersCalls(s, r, t);
    } else {
      OtherAccessKeepsCalls(s, r, t);
    }
  }

  lemma CallOrderDispatch(s: State, r: State, t: nat, u: nat)
    requires t in s.c.disp && DispatchFrame(s, r, t) && DispatchMoves(s, r, t) && DispatchCounts(s, r, t)
    requires CallOrderOf(s, u)
    ensures CallOrderOf(r, u)
  {
    if u == t { CallOrderOfItself(s, r, t); } else { CallOrderOfAnother(s, r, t, u); }
  }

  lemma CountsDispatch(s: State, r: State, t: nat)
    requires t in s.c.disp && DispatchFrame(s, r, t) && DispatchMoves(s, r, t) && DispatchCounts(s, r, t) && Counts(s)
    ensures Counts(r)
  {
    match s.c.disp[t]
    case Accepting(_) => assert Window(r) == Window(s) + {t};
    case Withdrawing => assert Window(r) == Window(s) - {t};
    case Counting => assert Window(r) == Window(s) - {t};
    case _ => assert Window(r) == Window(s);
  }

  lemma StopReadDispatch(s: State, r: State, t: nat)
    requires t in s.c.disp && DispatchFrame(s, r, t) && DispatchMoves(s, r, t) && DispatchCounts(s, r, t) && StopRead(s)
    ensures StopRead(r)
  {
    if s.c.disp[t].Counting? {
      assert LinkOwers(r) == LinkOwers(s) - {t};
    } else if s.m.stop || !s.c.disp[t].ReadingStop? {
      assert LinkOwers(r) == LinkOwers(s);
    }
  }

  lemma WakefulDispatch(s: State, r: State, t: nat)
    requires t in s.c.disp && DispatchFrame(s, r, t) && DispatchMoves(s, r, t) && DispatchCounts(s, r, t) && Wakeful(s)
    ensures Wakeful(r)
  {
    if s.c.disp[t].Exchanging? || s.c.disp[t].Linking? || s.c.disp[t].Counting? {
      assert t in WakeOwers(r);
    } else if !s.c.disp[t].Waking? {
      assert WakeOwers(r) == WakeOwers(s);
    }
  }

  // ----- the counts -----

  lemma SubsetSize<T>(a: set<T>, b: set<T>)
    requires a <= b
    ensures |a| <= |b|
  {
    if a != {} {
      var x :| x in a;
      SubsetSize(a - {x}, b - {x});
    }
  }

  // ----- a loop step, seen from the log and the counts -----

  /** Passes that end in a wait or the loop's end. */
  predicate Resting(l: Loop) {
    !l.LoadTail? && !l.LoadNext? && !Reanchoring(l) && !HasCurrent(l)
  }

  predicate Reanchoring(l: Loop) {
    l.MarkReanchor? || l.ClearStub? || l.ExchangeStub? || l.LinkStub?
  }

  ghost predicate LoopFrame(s: State, r: State) {
    && r.c.disp == s.c.disp && r.c.drains == s.c.drains && r.c.stoppers == s.c.stoppers
    && r.m.stop == s.m.stop && r.m.acceptCount == s.m.acceptCount && r.m.dispatchCount == s.m.dispatchCount
    && r.h.calls == s.h.calls
    && r.h.log == (if s.c.loop.ExchangeStub? then s.h.log + [Anchor] else s.h.log)
    && r.h.anchor == (if s.c.loop.ExchangeStub? then |s.h.log| else s.h.anchor)
  }

  lemma FrameResting(s: State)
    requires Resting(s.c.loop)
    ensures LoopFrame(s, LoopStepOf(s))
  {}

  lemma FrameOther(s: State)
    requires !Resting(s.c.loop)
    ensures LoopFrame(s, LoopStepOf(s))
  {}

  lemma LoopEffect(s: State)
    ensures LoopFrame(s, LoopStepOf(s))
  {
    if Resting(s.c.loop) { FrameResting(s); } else { FrameOther(s); }
  }

  lemma CallOrderLoop(s: State, r: State, u: nat)
    requires LoopFrame(s, r) && CallOrderOf(s, u)
    ensures CallOrderOf(r, u)
  {
    if s.c.loop.ExchangeStub? { ItemsBySnoc(s.h.log, Anchor, u); }
  }

  lemma LoggedResting(s: State)
    requires Logged(s) && Resting(s.c.loop)
    ensures Logged(LoopStepOf(s))
  {}

  lemma LoggedTake(s: State)
    requires Core(s) && Logged(s) && s.c.loop.LoadNext?
    ensures Logged(LoopStepOf(s))
  {
    EntryAt(s, s.h.head);
    ItemsSnoc(s.h.log[..s.h.head], s.h.log[s.h.head]);
    assert s.h.log[..s.h.head + 1] == s.h.log[..s.h.head] + [s.h.log[s.h.head]];
  }

  lemma LoggedReanchor(s: State)
    requires Logged(s) && Reanchoring(s.c.loop)
    ensures Logged(LoopStepOf(s))
  {
    assert (s.h.log + [Anchor])[..s.h.head] == s.h.log[..s.h.head];
  }

  lemma LoggedRun(s: State)
    requires Logged(s) && (HasCurrent(s.c.loop) || s.c.loop.LoadTail?)
    ensures Logged(LoopStepOf(s))
  {
  }

  lemma LoggedLoop(s: State)
    requires Core(s) && Logged(s)
    ensures Logged(LoopStepOf(s))
  {
    if Resting(s.c.loop) {
      LoggedResting(s);
    } else if s.c.loop.LoadNext? {
      LoggedTake(s);
    } else if Reanchoring(s.c.loop) {
      LoggedReanchor(s);
    } else {
      LoggedRun(s);
    }
  }

  lemma StopReadResting(s: State)
    requires Counts(s) && StopRead(s) && Resting(s.c.loop)
    ensures StopRead(LoopStepOf(s))
  {
    SubsetSize(LinkOwers(s), Window(s));
    FrameResting(s);
    assert LinkOwers(LoopStepOf(s)) == LinkOwers(s);
  }

  lemma StopReadLoop(s: State)
    requires !Resting(s.c.loop)
    ensures StopRead(LoopStepOf(s))
  {
  }

  lemma MarkStored(s: State)
    requires Core(s) && (s.c.loop.MarkIdle? || s.c.loop.MarkExited?)
    ensures Mark(LoopStepOf(s))
  {
    EntryAt(s, s.h.head);
  }

  lemma MarkResting(s: State)
    requires Mark(s) && Resting(s.c.loop) && !s.c.loop.MarkIdle? && !s.c.loop.MarkExited?
    ensures Mark(LoopStepOf(s))
  {
  }

  lemma MarkLoop(s: State)
    requires Core(s) && Mark(s) && !Resting(s.c.loop)
    ensures Mark(LoopStepOf(s))
  {
    EntryAt(s, s.h.head);
  }

  lemma WakefulResting(s: State)
    requires Core(s) && Wakeful(s) && Resting(s.c.loop)
    ensures Wakeful(LoopStepOf(s))
  {
    assert WakeOwers(LoopStepOf(s)) == WakeOwers(s);
  }

  /** A pass that finds no link knows the chain has run out, or a producer owes it. */
  lemma WakefulLook(s: State)
    requires Core(s) && s.c.loop.LoadNext? && NextOf(s, s.c.walk) == Null
    ensures Wakeful(LoopStepOf(s))
  {
    EntryAt(s, s.h.head);
    if s.h.head in s.h.owed && s.h.owed[s.h.head].Producer? {
      assert s.h.owed[s.h.head].thread in WakeOwers(s);
    }
    assert WakeOwers(LoopStepOf(s)) == WakeOwers(s);
  }

  /** A step that works on a node or the sentinel leads to no wait. */
  lemma WorkLeadsOn(s: State)
    requires !Resting(s.c.loop) && !(s.c.loop.LoadNext? && NextOf(s, s.c.walk) == Null)
    ensures !Waiting(LoopStepOf(s).c.loop)
  {
  }

  lemma WakefulLoop(s: State)
    requires Core(s) && Wakeful(s)
    ensures Wakeful(LoopStepOf(s))
  {
    if Resting(s.c.loop) {
      WakefulResting(s);
    } else if s.c.loop.LoadNext? && NextOf(s, s.c.walk) == Null {
      WakefulLook(s);
    } else {
      WorkLeadsOn(s);
    }
  }

  // ----- every step -----

  lemma DispatchInv(s: State, t: nat)
    requires Inv(s) && t in s.c.disp
    ensures Inv(DispatchStep(s, t))
  {
    var r := DispatchStep(s, t);
    DispatchCore(s, t);
    DispatchEffect(s, t);
    LoggedDispatch(s, r, t);
    forall u ensures CallOrderOf(r, u) { assert CallOrderOf(s, u); CallOrderDispatch(s, r, t, u); }
    CountsDispatch(s, r, t);
    StopReadDispatch(s, r, t);
    WakefulDispatch(s, r, t);
  }

  lemma LoopInv(s: State)
    requires Inv(s)
    ensures Inv(LoopStepOf(s))
  {
    var r := LoopStepOf(s);
    LoopCore(s);
    LoopEffect(s);
    forall u ensures CallOrderOf(r, u) { assert CallOrderOf(s, u); CallOrderLoop(s, r, u); }
    assert Window(r) == Window(s);
    LoggedLoop(s);
    WakefulLoop(s);
    if Resting(s.c.loop) {
      StopReadResting(s);
      if s.c.loop.MarkIdle? || s.c.loop.MarkExited? { MarkStored(s); } else { MarkResting(s); }
    } else {
      StopReadLoop(s);
      MarkLoop(s);
    }
  }

  lemma BeginInv(s: State, t: nat, n: nat)
    requires Inv(s) && Enabled(s, Begin(t, n))
    ensures Inv(Step(s, Begin(t, n)))
  {
    var r := Step(s, Begin(t, n));
    BeginCore(s, t, n);
    forall u ensures CallOrderOf(r, u) { assert CallOrderOf(s, u); }
    assert Window(r) == Window(s) && LinkOwers(r) == LinkOwers(s) && WakeOwers(r) == WakeOwers(s);
  }

  /** A step of no dispatch and of no loop leaves the log, the calls and every window as
      they were. */
  ghost predicate Aside(s: State, r: State) {
    && r.h.log == s.h.log && r.h.calls == s.h.calls && r.c.disp == s.c.disp
    && Window(r) == Window(s) && LinkOwers(r) == LinkOwers(s) && WakeOwers(r) == WakeOwers(s)
  }

  lemma CallsAside(s: State, r: State)
    requires CallOrder(s) && Aside(s, r)
    ensures CallOrder(r)
  {
    forall u ensures CallOrderOf(r, u) { assert CallOrderOf(s, u); }
  }

  lemma OutsideAside(s: State, a: Action)
    requires Inv(s) && Enabled(s, a) && !a.Dispatch? && !a.LoopStep? && !a.Begin?
    ensures Aside(s, Step(s, a))
  {
  }

  lemma DrainInv(s: State, a: Action)
    requires Inv(s) && Enabled(s, a) && (a.BeginDrain? || a.DrainStep? || a.LeaveDrain?)
    ensures Inv(Step(s, a))
  {
    StepCore(s, a);
    OutsideAside(s, a);
    CallsAside(s, Step(s, a));
  }

  lemma CallerInv(s: State, a: Action)
    requires Inv(s) && Enabled(s, a) && (a.Construct? || a.Destroy? || a.RequestStop? || a.StopWake?)
    ensures Inv(Step(s, a))
  {
    StepCore(s, a);
    OutsideAside(s, a);
    CallsAside(s, Step(s, a));
  }

  lemma StepInv(s: State, a: Action)
    requires Inv(s) && Enabled(s, a)
    ensures Inv(Step(s, a))
  {
    match a
    case Dispatch(t) => DispatchInv(s, t);
    case LoopStep => LoopInv(s);
    case Begin(t, n) => BeginInv(s, t, n);
    case _ => if a.BeginDrain? || a.DrainStep? || a.LeaveDrain? { DrainInv(s, a); } else { CallerInv(s, a); }
  }

  /** The invariant stands at the end of every run, whatever the threads do. */
  lemma {:induction false} RunInv(s: State, run: seq<Action>)
    requires Inv(s) && Legal(s, run)
    ensures Inv(After(s, run))
    decreases |run|
  {
    if run != [] {
      StepInv(s, run[0]);
      RunInv(Step(s, run[0]), run[1..]);
    }
  }
}
