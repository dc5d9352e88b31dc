/** The inductive invariant of the inbox step system. */
module InboxInvariant {
  import opened Inbox

  // ----- the chain -----

  /** The link the chain calls for behind log position k. */
  ghost function LinkAt(s: State, k: nat): Ptr {
    if k + 1 < |s.h.log| && k !in s.h.owed then PtrOf(s.h.log[k + 1]) else Null
  }

  /** The owner of an unpublished link stands exactly before its link store. */
  ghost predicate OwnerStands(s: State, k: nat)
    requires k in s.h.owed && k + 1 < |s.h.log|
  {
    match s.h.owed[k]
    case Producer(t) =>
      s.h.log[k + 1].Item? && s.h.log[k + 1].thread == t && t in s.c.disp &&
      s.c.disp[t] == Linking(PtrOf(s.h.log[k]), s.h.log[k + 1].id, k)
    case LoopThread => s.h.log[k + 1].Anchor? && s.c.loop == LinkStub(PtrOf(s.h.log[k]), k)
  }

  /** An exchanged, untaken entry: the one sentinel, or a live, stamped, unrun node;
      its link stands unless an in-flight dispatch or the re-anchor owes it. */
  ghost predicate EntryOk(s: State, k: nat)
    requires k < |s.h.log|
  {
    && (s.h.log[k].Anchor? ==> k == s.h.anchor)
    && (s.h.log[k].Item? ==>
          s.h.log[k].id in s.m.nodes &&
          s.m.nodes[s.h.log[k].id].completion == Pending && s.m.nodes[s.h.log[k].id].accepted &&
          s.m.nodes[s.h.log[k].id].place == InChain(k))
    && NextOf(s, PtrOf(s.h.log[k])) == LinkAt(s, k)
    && (k in s.h.owed && k + 1 < |s.h.log| ==> OwnerStands(s, k))
  }

  /** The chain is one stretch of the log, from the walk pointer to the tail. */
  ghost predicate Shape(s: State) {
    && s.h.head < |s.h.log|
    && s.c.walk == PtrOf(s.h.log[s.h.head])
    && s.m.tail == PtrOf(s.h.log[|s.h.log| - 1])
    && s.h.anchor < |s.h.log| && s.h.log[s.h.anchor].Anchor?
    && (forall k :: s.h.anchor < k < |s.h.log| ==> s.h.log[k].Item?)
    && (forall k :: k in s.h.owed ==> s.h.head <= k < |s.h.log| - 1)
  }

  ghost predicate Chain(s: State) {
    && Shape(s)
    && (forall k: nat {:trigger EntryOk(s, k)} :: s.h.head <= k < |s.h.log| ==> EntryOk(s, k))
  }

  // ----- who owns a node -----

  /** A node is where its place says, with the words that place calls for. */
  ghost predicate NodeOk(s: State, n: nat)
    requires n in s.m.nodes
  {
    match s.m.nodes[n].place
    case Free => s.m.nodes[n].completion == Done || s.m.nodes[n].completion == Stopped
                 || (s.m.nodes[n].completion == Pending && !s.m.nodes[n].accepted)
    case InHand(t) => t in s.c.disp && Holds(s.c.disp[t], n) && s.m.nodes[n].completion != Running
    case InChain(k) => s.h.head <= k < |s.h.log| && s.h.log[k].Item? && s.h.log[k].id == n
    case AtLoop =>
      RunsNode(s.c.loop, n) && s.m.nodes[n].accepted &&
      s.m.nodes[n].completion == if s.c.loop.RunItem? || s.c.loop.MarkDone? then Running else Pending
  }

  /** A thread inside `dispatch` owns the node in its hands, or stands at its owed link. */
  ghost predicate ThreadOk(s: State, t: nat)
    requires t in s.c.disp
  {
    match s.c.disp[t]
    case Withdrawing => true
    case Counting => true
    case Waking => true
    case Linking(prev, n, at) => at in s.h.owed && s.h.owed[at] == Producer(t)
    case d =>
      d.n in s.m.nodes && s.m.nodes[d.n].place == InHand(t)
      && (d.Accepting? || d.ReadingStop? || d.Refusing? ==>
            s.m.nodes[d.n].completion != Pending || !s.m.nodes[d.n].accepted)
      && (d.Stamping? || d.Clearing? || d.Exchanging? ==> s.m.nodes[d.n].completion == Pending)
      && (d.Clearing? || d.Exchanging? ==> s.m.nodes[d.n].accepted)
      && (d.Exchanging? ==> s.m.nodes[d.n].next == Null)
  }

  ghost predicate Nodes(s: State) {
    forall n {:trigger NodeOk(s, n)} :: n in s.m.nodes ==> NodeOk(s, n)
  }

  ghost predicate Threads(s: State) {
    forall t {:trigger ThreadOk(s, t)} :: t in s.c.disp ==> ThreadOk(s, t)
  }

  // ----- the loop's local knowledge -----

  ghost predicate CurrentOk(s: State, n: nat) {
    && n in s.m.nodes && s.m.nodes[n].place == AtLoop
    && 0 < s.h.head <= |s.h.log| && s.h.log[s.h.head - 1].Item? && s.h.log[s.h.head - 1].id == n
  }

  ghost predicate Pass(s: State) {
    match s.c.loop
    case LoadNext(tail) =>
      (tail == s.c.walk ==> s.h.anchor <= s.h.head) && (tail != s.c.walk ==> s.h.head + 1 < |s.h.log|)
    case MarkReanchor => s.h.anchor < s.h.head
    case ClearStub => s.h.anchor < s.h.head && s.m.phase == Working
    case ExchangeStub => s.h.anchor < s.h.head && s.m.phase == Working && s.m.stubNext == Null
    case LinkStub(_, at) => s.m.phase == Working && at in s.h.owed && s.h.owed[at] == LoopThread
    case MarkWorking(n) => CurrentOk(s, n)
    case MarkRunning(n) => CurrentOk(s, n) && s.m.phase == Working
    case RunItem(n) => CurrentOk(s, n) && s.m.phase == Working
    case MarkDone(n) => CurrentOk(s, n) && s.m.phase == Working
    case _ => true
  }

  // ----- the log -----

  ghost predicate Logged(s: State) {
    && s.h.head <= |s.h.log|
    && Items(s.h.log[..s.h.head]) ==
       s.h.ran + (match s.c.loop
                case MarkWorking(n) => [n]
                case MarkRunning(n) => [n]
                case RunItem(n) => [n]
                case _ => [])
  }

  /** The accepted node a dispatch still has to exchange. */
  function AcceptedInHand(d: Dispatcher): seq<nat> {
    match d
    case Resetting(n) => [n]
    case Stamping(n) => [n]
    case Clearing(n) => [n]
    case Exchanging(n) => [n]
    case _ => []
  }

  ghost predicate CallOrderOf(s: State, t: nat) {
    CallsBy(s.h.calls, t) == ItemsBy(s.h.log, t) + if t in s.c.disp then AcceptedInHand(s.c.disp[t]) else []
  }

  ghost predicate CallOrder(s: State) {
    forall t {:trigger CallOrderOf(s, t)} :: CallOrderOf(s, t)
  }

  // ----- the counts -----

  ghost predicate Counts(s: State) {
    s.m.acceptCount == s.m.dispatchCount + |Window(s)|
  }

  /** What a pass knows once it has read the stop request and the accept count. */
  ghost predicate StopRead(s: State) {
    match s.c.loop
    case LoadAccept(stopped) => stopped ==> s.m.stop
    case LoadDispatch(stopped, accepted) => stopped ==> s.m.stop && s.m.dispatchCount + |LinkOwers(s)| <= accepted
    case MarkExited => s.m.stop && LinkOwers(s) == {}
    case BumpExit => s.m.stop && LinkOwers(s) == {}
    case Ended => s.m.stop && LinkOwers(s) == {}
    case _ => true
  }

  // ----- the idle mark -----

  /** What a standing IDLE or EXITED mark says, by where its pass stood. */
  ghost predicate Mark(s: State) {
    s.m.phase != Working ==>
      && s.h.idleAt < |s.h.log|
      && (s.h.log[s.h.idleAt].Anchor? ==> s.h.idleAt == s.h.anchor && s.h.idleAt <= SettledTo(s))
      && (s.h.log[s.h.idleAt].Item? ==> SettledTo(s) == s.h.idleAt)
  }

  // ----- waking -----

  predicate Waiting(l: Loop) {
    l.LoadStop? || l.MarkIdle? || l.BumpIdle? || l.LoadAccept? || l.LoadDispatch? ||
    l.ConsumeWake? || l.CheckWake? || l.CheckStop? || l.Parked?
  }

  /** While the loop goes to wait, unrun work is announced or about to be. */
  ghost predicate Wakeful(s: State) {
    && (Waiting(s.c.loop) ==> (s.c.walk == Stub && s.m.tail == Stub) || s.m.wake || WakeOwers(s) != {})
    && (s.c.loop.Parked? && s.m.stop ==> s.m.wake || s.c.stoppers > 0)
  }

  // ----- drainers -----

  ghost predicate Drains(s: State) {
    forall t :: t in s.c.drains && s.c.drains[t].ReadPhase? && s.c.drains[t].tailAtStub ==>
      s.c.drains[t].mark <= s.h.anchor + 1
  }

  ghost predicate Inv(s: State) {
    && Chain(s) && Nodes(s) && Threads(s) && Pass(s)
    && Logged(s) && CallOrder(s) && Counts(s) && StopRead(s) && Mark(s) && Wakeful(s) && Drains(s)
  }

  lemma InitInv(mode: WaitMode)
    ensures Inv(Init(mode))
  {
    var s := Init(mode);
    assert s.h.log[..0] == [];
    assert s.h.log[..|s.h.log| - 1] == [];
    assert Window(s) == {};
  }
}
