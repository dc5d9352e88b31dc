/** Left alone, the loop runs everything the inbox holds. */
module InboxProgress {
  import opened Inbox
  import opened InboxInvariant
  import opened InboxSteps
  import opened InboxHistory
  import opened InboxTheorems

  /** Twice the unrun queued nodes, and one for the node in the loop's hands. */
  ghost function Owing(s: State): int {
    2 * |Items(s.h.log[if s.h.head <= |s.h.log| then s.h.head else 0..])| + if HasCurrent(s.c.loop) then 1 else 0
  }

  /** How far the walk is from its next take. */
  ghost function Distance(s: State): int {
    if s.c.walk == Stub then 2 else if s.h.anchor < s.h.head then 1 else 0
  }

  /** The steps left in the present pass or wait, with work announced. */
  function Rank(l: Loop): int {
    match l
    case LoadStop => 19
    case MarkIdle => 18
    case BumpIdle => 17
    case LoadAccept(_) => 16
    case LoadDispatch(_, _) => 15
    case ConsumeWake => 14
    case CheckStop => 13
    case Parked => 12
    case CheckWake => 11
    case LinkStub(_, _) => 10
    case MarkWorking(_) => 9
    case MarkRunning(_) => 8
    case RunItem(_) => 7
    case MarkDone(_) => 6
    case LoadTail => 5
    case LoadNext(_) => 4
    case MarkReanchor => 3
    case ClearStub => 2
    case ExchangeStub => 1
    case _ => 0
  }

  /** Nothing queued and nothing in the loop's hands. */
  ghost predicate RunOut(s: State) {
    s.c.walk == Stub && s.m.tail == Stub && !HasCurrent(s.c.loop)
  }

  /** Nobody dispatches. */
  ghost predicate Lone(s: State) {
    Inv(s) && s.c.disp == map[]
  }

  ghost predicate Alone(s: State) {
    Lone(s) && !s.m.stop
  }

  lemma {:induction false} ItemsAppend(a: seq<Entry>, b: seq<Entry>)
    ensures Items(a + b) == Items(a) + Items(b)
    decreases |b|
  {
    if b == [] {
      assert a + b == a;
    } else {
      var c := b[..|b| - 1];
      assert (a + b)[..|a + b| - 1] == a + c;
      ItemsAppend(a, c);
    }
  }

  lemma ItemsTail(s: State)
    requires s.h.head < |s.h.log|
    ensures |Items(s.h.log[s.h.head..])| ==
            |Items(s.h.log[s.h.head + 1..])| + if s.h.log[s.h.head].Item? then 1 else 0
  {
    var e := s.h.log[s.h.head];
    assert s.h.log[s.h.head..] == [e] + s.h.log[s.h.head + 1..];
    ItemsAppend([e], s.h.log[s.h.head + 1..]);
    assert [e][..0] == [];
  }

  /** With nobody dispatching, work that is not run out is announced by the wake flag. */
  lemma Announced(s: State)
    requires Lone(s) && Waiting(s.c.loop) && !RunOut(s)
    ensures s.m.wake
  {
    assert WakeOwers(s) == {};
  }

  lemma Continues(s: State)
    requires Alone(s) && !RunOut(s)
    ensures Enabled(s, LoopStep) && Alone(LoopStepOf(s))
  {
    LoopInv(s);
    LoopEffect(s);
    if Waiting(s.c.loop) { Announced(s); }
  }

  /** The loop has come nearer to running out. */
  ghost predicate Nearer(s: State, r: State) {
    || Owing(r) < Owing(s)
    || (Owing(r) == Owing(s) && Distance(r) < Distance(s))
    || (Owing(r) == Owing(s) && Distance(r) == Distance(s) && Rank(r.c.loop) < Rank(s.c.loop))
  }

  lemma TakeNears(s: State, n: nat)
    requires Lone(s) && s.c.loop.LoadNext? && NextOf(s, s.c.walk) != Null && s.c.walk == Node(n)
    ensures Nearer(s, Take(s, n))
  {
    EntryAt(s, s.h.head);
    ItemsTail(s);
  }

  lemma SentinelNears(s: State)
    requires Lone(s) && s.c.loop.LoadNext? && NextOf(s, s.c.walk) != Null && s.c.walk == Stub
    ensures Nearer(s, PassSentinel(s))
  {
    EntryAt(s, s.h.head);
    ItemsTail(s);
    EntryAt(s, s.h.head + 1);
  }

  /** With no link behind the walk and nobody dispatching, the walk stands on the tail. */
  lemma LoneWalk(s: State)
    requires Lone(s) && s.c.loop.LoadNext? && NextOf(s, s.c.walk) == Null
    ensures s.c.walk == s.m.tail && s.c.loop == LoadNext(s.m.tail)
  {
    EntryAt(s, s.h.head);
  }

  lemma PassNears(s: State, tail: Ptr)
    requires Alone(s) && !RunOut(s) && s.c.loop == LoadNext(tail)
    ensures Nearer(s, Decide(s, tail))
  {
    if NextOf(s, s.c.walk) == Null {
      LoneWalk(s);
    } else if s.c.walk.Node? {
      TakeNears(s, s.c.walk.id);
    } else {
      EntryAt(s, s.h.head);
      SentinelNears(s);
    }
  }

  lemma RunNears(s: State)
    requires Lone(s) && (HasCurrent(s.c.loop) || s.c.loop.LoadTail?)
    ensures Nearer(s, LoopStepOf(s))
  {
  }

  lemma ReanchorNears(s: State)
    requires Lone(s) && Reanchoring(s.c.loop) && !s.c.loop.ExchangeStub?
    ensures Nearer(s, LoopStepOf(s))
  {
  }

  lemma AnchorOwesNothing(s: State)
    requires s.h.head <= |s.h.log| && s.c.loop.ExchangeStub?
    ensures Owing(AnchorTail(s)) == Owing(s)
  {
    assert (s.h.log + [Anchor])[s.h.head..] == s.h.log[s.h.head..] + [Anchor];
    ItemsSnoc(s.h.log[s.h.head..], Anchor);
  }

  lemma AnchorCloses(s: State)
    requires Core(s) && s.c.loop.ExchangeStub?
    ensures s.h.head <= |s.h.log| && Distance(AnchorTail(s)) < Distance(s)
  {
    EntryAt(s, s.h.head);
  }

  lemma AnchorNears(s: State)
    requires Lone(s) && s.c.loop.ExchangeStub?
    ensures Nearer(s, AnchorTail(s))
  {
    AnchorCloses(s);
    AnchorOwesNothing(s);
  }

  lemma WaitNears(s: State)
    requires Alone(s) && Waiting(s.c.loop) && s.m.wake
    ensures Nearer(s, LoopStepOf(s))
  {
  }

  lemma StepNears(s: State)
    requires Alone(s) && !RunOut(s)
    ensures Nearer(s, LoopStepOf(s))
  {
    match s.c.loop
    case LoadNext(tail) => PassNears(s, tail);
    case ExchangeStub => AnchorNears(s);
    case _ =>
      if Reanchoring(s.c.loop) { ReanchorNears(s); }
      else if Waiting(s.c.loop) { Announced(s); WaitNears(s); }
      else { RunNears(s); }
  }

  /** From any reachable state with no dispatch under way and no stop, the loop alone
      reaches a state in which every accepted dispatch of every thread has run. */
  lemma {:induction false} LoopRunsEverything(s: State) returns (run: seq<Action>)
    requires Alone(s)
    ensures Legal(s, run) && (forall a | a in run :: a == LoopStep)
    ensures AllRan(After(s, run)) && AllSettled(After(s, run))
    decreases Owing(s), Distance(s), Rank(s.c.loop)
  {
    if RunOut(s) {
      run := [];
      EntryAt(s, s.h.head);
      EntryAt(s, |s.h.log| - 1);
      assert LinkOwers(s) == {};
      forall t ensures CallsBy(s.h.calls, t) == ItemsBy(s.h.log[..s.h.head], t) {
        ItemsByPrefix(s.h.log, s.h.head, t);
        NothingInHand(s, t);
      }
      forall n | n in s.m.nodes && s.m.nodes[n].accepted
        ensures s.m.nodes[n].completion == Done || s.m.nodes[n].completion == Stopped
      {
        EmptyChainSettled(s, n);
      }
    } else {
      Continues(s);
      StepNears(s);
      var rest := LoopRunsEverything(LoopStepOf(s));
      run := StepFirst(s, LoopStep, rest);
    }
  }
}
