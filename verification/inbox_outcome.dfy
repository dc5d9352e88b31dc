/** What becomes of one dispatch: it is refused and its node reads STOPPED, or it is
    accepted, exchanged once and run once, and only then does its node read DONE. */
module InboxOutcome {
  import opened Inbox
  import opened InboxInvariant
  import opened InboxSteps
  import opened InboxHistory
  import opened InboxTheorems
  import opened InboxProgress

  predicate Carries(e: Entry, n: nat) {
    e.Item? && e.id == n
  }

  /** How far one dispatch has come: `c` is its place among the accepted calls, `k` its
      place in the log. */
  datatype Stage =
    | Deciding
    | TurnedAway
    | Refused
    | Taken(c: nat)
    | Queued(c: nat, k: nat)

  /** Since state b no dispatch of the node has been accepted. */
  predicate Uncalled(b: State, s: State, n: nat) {
    |b.h.calls| <= |s.h.calls| && forall i | |b.h.calls| <= i < |s.h.calls| :: s.h.calls[i].1 != n
  }

  /** Since state b the node has not been exchanged. */
  predicate Unlogged(b: State, s: State, n: nat) {
    |b.h.log| <= |s.h.log| && forall i | |b.h.log| <= i < |s.h.log| :: !Carries(s.h.log[i], n)
  }

  /** Since state b exactly one dispatch of the node has been accepted, thread t's. */
  predicate CalledOnce(b: State, s: State, t: nat, n: nat, c: nat) {
    && |b.h.calls| <= c < |s.h.calls| && s.h.calls[c] == (t, n)
    && forall i | |b.h.calls| <= i < |s.h.calls| && i != c :: s.h.calls[i].1 != n
  }

  /** Since state b the node has been exchanged exactly once, by thread t. */
  predicate LoggedOnce(b: State, s: State, t: nat, n: nat, k: nat) {
    && |b.h.log| <= k < |s.h.log| && s.h.log[k] == Item(t, n)
    && forall i | |b.h.log| <= i < |s.h.log| && i != k :: !Carries(s.h.log[i], n)
  }

  /** Exchanged at log position k and not run, in the loop's hands, or run and DONE. */
  predicate InQueue(s: State, n: nat, k: nat)
    requires n in s.m.nodes
  {
    match s.m.nodes[n].place
    case InChain(at) => at == k && s.m.nodes[n].completion == Pending
    case AtLoop => s.h.head == k + 1
    case Free => s.m.nodes[n].completion == Done && k < SettledTo(s)
    case InHand(_) => false
  }

  /** Where thread t's dispatch of the node, begun in state b, stands in state s. */
  predicate Stands(b: State, s: State, t: nat, n: nat, g: Stage) {
    n in s.m.nodes &&
    match g
    case Deciding =>
      Uncalled(b, s, n) && Unlogged(b, s, n) && t in s.c.disp && (s.c.disp[t] == Accepting(n) || s.c.disp[t] == ReadingStop(n))
    case TurnedAway => s.m.stop && Uncalled(b, s, n) && Unlogged(b, s, n) && t in s.c.disp && s.c.disp[t] == Refusing(n)
    case Refused =>
      s.m.stop && Uncalled(b, s, n) && Unlogged(b, s, n) &&
      s.m.nodes[n].place == Free && s.m.nodes[n].completion == Stopped
    case Taken(c) =>
      CalledOnce(b, s, t, n, c) && Unlogged(b, s, n) && t in s.c.disp &&
      (s.c.disp[t] == Resetting(n) || s.c.disp[t] == Stamping(n) || s.c.disp[t] == Clearing(n) || s.c.disp[t] == Exchanging(n))
    case Queued(c, k) => CalledOnce(b, s, t, n, c) && LoggedOnce(b, s, t, n, k) && InQueue(s, n, k)
  }

  // ----- one step -----

  /** The step keeps the node's place and completion, and what it appends to the history
      is not about the node. */
  predicate Passes(s: State, r: State, n: nat) {
    && n in s.m.nodes && n in r.m.nodes
    && r.m.nodes[n].place == s.m.nodes[n].place && r.m.nodes[n].completion == s.m.nodes[n].completion
    && s.h.log <= r.h.log && s.h.calls <= r.h.calls && Unlogged(s, r, n) && Uncalled(s, r, n)
  }

  lemma DispatchPasses(s: State, u: nat, n: nat)
    requires Inv(s) && u in s.c.disp && n in s.m.nodes && s.m.nodes[n].place != InHand(u)
    ensures Passes(s, DispatchStep(s, u), n)
  {
    assert ThreadOk(s, u);
    DispatchEffect(s, u);
    DispatchKeepsWords(s, u, n);
  }

  lemma DispatchKeepsWords(s: State, u: nat, n: nat)
    requires u in s.c.disp && ThreadOk(s, u) && n in s.m.nodes && s.m.nodes[n].place != InHand(u)
    ensures n in DispatchStep(s, u).m.nodes
    ensures DispatchStep(s, u).m.nodes[n].place == s.m.nodes[n].place
    ensures DispatchStep(s, u).m.nodes[n].completion == s.m.nodes[n].completion
  {
  }

  /** The loop leaves alone what stands in no queue. */
  lemma LoopPasses(s: State, n: nat)
    requires Inv(s) && n in s.m.nodes && (s.m.nodes[n].place == Free || s.m.nodes[n].place.InHand?)
    ensures Passes(s, LoopStepOf(s), n)
  {
    LoopEffect(s);
    EntryAt(s, s.h.head);
    LoopKeepsWords(s, n);
  }

  lemma LoopKeepsWords(s: State, n: nat)
    requires Inv(s) && n in s.m.nodes && (s.m.nodes[n].place == Free || s.m.nodes[n].place.InHand?)
    requires EntryOk(s, s.h.head)
    ensures n in LoopStepOf(s).m.nodes
    ensures LoopStepOf(s).m.nodes[n].place == s.m.nodes[n].place
    ensures LoopStepOf(s).m.nodes[n].completion == s.m.nodes[n].completion
  {
    if Resting(s.c.loop) || Reanchoring(s.c.loop) {
      QuietKeepsWords(s, n);
    } else {
      WorkKeepsWords(s, n);
    }
  }

  lemma QuietKeepsWords(s: State, n: nat)
    requires n in s.m.nodes && (Resting(s.c.loop) || Reanchoring(s.c.loop))
    ensures n in LoopStepOf(s).m.nodes
    ensures LoopStepOf(s).m.nodes[n].place == s.m.nodes[n].place
    ensures LoopStepOf(s).m.nodes[n].completion == s.m.nodes[n].completion
  {
  }

  lemma WorkKeepsWords(s: State, n: nat)
    requires Core(s) && n in s.m.nodes && (s.m.nodes[n].place == Free || s.m.nodes[n].place.InHand?)
    requires EntryOk(s, s.h.head) && !Resting(s.c.loop) && !Reanchoring(s.c.loop)
    ensures n in LoopStepOf(s).m.nodes
    ensures LoopStepOf(s).m.nodes[n].place == s.m.nodes[n].place
    ensures LoopStepOf(s).m.nodes[n].completion == s.m.nodes[n].completion
  {
  }

  lemma OutsidePasses(s: State, a: Action, n: nat)
    requires Inv(s) && Enabled(s, a) && n in s.m.nodes && !a.Dispatch? && a != LoopStep
    requires a != Destroy(n) && !(a.Begin? && a.n == n)
    ensures Passes(s, Step(s, a), n)
    ensures forall t | t in s.c.disp :: t in Step(s, a).c.disp && Step(s, a).c.disp[t] == s.c.disp[t]
    ensures SettledTo(Step(s, a)) == SettledTo(s) && Step(s, a).h.head == s.h.head
    ensures s.m.stop ==> Step(s, a).m.stop
  {
  }

  lemma PassKeepsHistory(b: State, s: State, r: State, t: nat, n: nat, g: Stage)
    requires Passes(s, r, n) && Stands(b, s, t, n, g)
    ensures Uncalled(b, s, n) ==> Uncalled(b, r, n)
    ensures Unlogged(b, s, n) ==> Unlogged(b, r, n)
    ensures g.Taken? || g.Queued? ==> CalledOnce(b, r, t, n, g.c)
    ensures g.Queued? ==> LoggedOnce(b, r, t, n, g.k)
  {
  }

  lemma StandsPast(b: State, s: State, r: State, t: nat, n: nat, g: Stage)
    requires Passes(s, r, n) && Stands(b, s, t, n, g)
    requires s.m.stop ==> r.m.stop
    requires g.Deciding? || g.TurnedAway? || g.Taken? ==> t in r.c.disp && t in s.c.disp && r.c.disp[t] == s.c.disp[t]
    requires g.Queued? && s.m.nodes[n].place == Free ==> SettledTo(s) <= SettledTo(r)
    requires g.Queued? && s.m.nodes[n].place == AtLoop ==> s.h.head == r.h.head
    ensures Stands(b, r, t, n, g)
  {
    PassKeepsHistory(b, s, r, t, n, g);
  }

  /** The dispatch's own accesses up to the refusal or the tail exchange. */
  lemma OwnStep(b: State, s: State, t: nat, n: nat, g: Stage) returns (h: Stage)
    requires Inv(s) && Stands(b, s, t, n, g) && (g.Deciding? || g.TurnedAway? || g.Taken?)
    ensures Stands(b, DispatchStep(s, t), t, n, h)
  {
    var r := DispatchStep(s, t);
    assert ThreadOk(s, t);
    DispatchEffect(s, t);
    h := match s.c.disp[t]
    case ReadingStop(_) => if s.m.stop then TurnedAway else Taken(|s.h.calls|)
    case Refusing(_) => Refused
    case Exchanging(_) => Queued(g.c, |s.h.log|)
    case _ => g;
  }

  lemma QueuedLoop(s: State, n: nat, k: nat)
    requires Inv(s) && n in s.m.nodes && InQueue(s, n, k) && s.m.nodes[n].place != Free
    ensures n in LoopStepOf(s).m.nodes && InQueue(LoopStepOf(s), n, k)
  {
    EntryAt(s, s.h.head);
    assert NodeOk(s, n);
    if Resting(s.c.loop) || Reanchoring(s.c.loop) {
      QuietKeepsWords(s, n);
      QuietKeepsPlace(s);
    } else {
      QueuedTurn(s, n, k);
    }
  }

  lemma QuietKeepsPlace(s: State)
    requires Resting(s.c.loop) || Reanchoring(s.c.loop)
    ensures LoopStepOf(s).h.head == s.h.head
  {
  }

  lemma QueuedTurn(s: State, n: nat, k: nat)
    requires Core(s) && n in s.m.nodes && InQueue(s, n, k) && s.m.nodes[n].place != Free
    requires EntryOk(s, s.h.head) && NodeOk(s, n) && !Resting(s.c.loop) && !Reanchoring(s.c.loop)
    ensures n in LoopStepOf(s).m.nodes && InQueue(LoopStepOf(s), n, k)
  {
    if HasCurrent(s.c.loop) { QueuedWhileRunning(s, n, k); }
  }

  lemma QueuedWhileRunning(s: State, n: nat, k: nat)
    requires Pass(s) && n in s.m.nodes && InQueue(s, n, k) && s.m.nodes[n].place != Free
    requires NodeOk(s, n) && HasCurrent(s.c.loop)
    ensures n in LoopStepOf(s).m.nodes && InQueue(LoopStepOf(s), n, k)
  {
  }

  lemma LoopAppends(b: State, s: State, t: nat, n: nat, g: Stage)
    requires Stands(b, s, t, n, g) && g.Queued?
    ensures CalledOnce(b, LoopStepOf(s), t, n, g.c) && LoggedOnce(b, LoopStepOf(s), t, n, g.k)
  {
    LoopEffect(s);
  }

  lemma StageDispatch(b: State, s: State, u: nat, t: nat, n: nat, g: Stage) returns (h: Stage)
    requires Inv(s) && u in s.c.disp && Stands(b, s, t, n, g)
    ensures Stands(b, DispatchStep(s, u), t, n, h)
  {
    h := g;
    if u == t && (g.Deciding? || g.TurnedAway? || g.Taken?) {
      h := OwnStep(b, s, t, n, g);
    } else {
      InHandOfItsThread(b, s, t, n, g);
      DispatchPasses(s, u, n);
      DispatchEffect(s, u);
      StandsPast(b, s, DispatchStep(s, u), t, n, g);
    }
  }

  lemma InHandOfItsThread(b: State, s: State, t: nat, n: nat, g: Stage)
    requires Inv(s) && Stands(b, s, t, n, g)
    ensures s.m.nodes[n].place.InHand? ==> s.m.nodes[n].place == InHand(t)
    ensures g.Deciding? || g.TurnedAway? || g.Taken? ==> s.m.nodes[n].place == InHand(t)
  {
    if t in s.c.disp { assert ThreadOk(s, t); }
  }

  lemma StageLoop(b: State, s: State, t: nat, n: nat, g: Stage)
    requires Inv(s) && Stands(b, s, t, n, g)
    ensures Stands(b, LoopStepOf(s), t, n, g)
  {
    InHandOfItsThread(b, s, t, n, g);
    if g.Queued? && s.m.nodes[n].place != Free {
      QueuedLoop(s, n, g.k);
      LoopAppends(b, s, t, n, g);
    } else {
      LoopPasses(s, n);
      LoopEffect(s);
      if Resting(s.c.loop) { SettledGrowsResting(s); } else { SettledGrowsLoop(s); }
      StandsPast(b, s, LoopStepOf(s), t, n, g);
    }
  }

  lemma StageOutside(b: State, s: State, a: Action, t: nat, n: nat, g: Stage)
    requires Inv(s) && Enabled(s, a) && Stands(b, s, t, n, g) && !a.Dispatch? && a != LoopStep
    requires a != Destroy(n) && !(a.Begin? && a.n == n)
    ensures Stands(b, Step(s, a), t, n, g)
  {
    OutsidePasses(s, a, n);
    StandsPast(b, s, Step(s, a), t, n, g);
  }

  lemma StageStep(b: State, s: State, a: Action, t: nat, n: nat, g: Stage) returns (h: Stage)
    requires Inv(s) && Enabled(s, a) && Stands(b, s, t, n, g) && LeavesNode([a], n)
    ensures Stands(b, Step(s, a), t, n, h)
  {
    assert a in [a];
    h := g;
    match a
    case Dispatch(u) => h := StageDispatch(b, s, u, t, n, g);
    case LoopStep => StageLoop(b, s, t, n, g);
    case _ => StageOutside(b, s, a, t, n, g);
  }

  // ----- whole runs -----

  lemma {:induction false} StageRun(b: State, s: State, run: seq<Action>, t: nat, n: nat, g: Stage) returns (h: Stage)
    requires Inv(s) && Legal(s, run) && Stands(b, s, t, n, g) && LeavesNode(run, n)
    ensures Stands(b, After(s, run), t, n, h)
    decreases |run|
  {
    h := g;
    if run != [] {
      assert run[0] in run;
      h := StageStep(b, s, run[0], t, n, g);
      StepInv(s, run[0]);
      h := StageRun(b, Step(s, run[0]), run[1..], t, n, h);
    }
  }

  /** A dispatch, followed from its call over any run that neither destroys the node nor
      dispatches it again. */
  lemma FollowDispatch(s: State, t: nat, n: nat, run: seq<Action>) returns (g: Stage)
    requires Inv(s) && Enabled(s, Begin(t, n)) && Legal(Step(s, Begin(t, n)), run) && LeavesNode(run, n)
    ensures Stands(s, After(Step(s, Begin(t, n)), run), t, n, g)
  {
    StepInv(s, Begin(t, n));
    g := StageRun(s, Step(s, Begin(t, n)), run, t, n, Deciding);
  }

  /** Thread t has not yet read the stop, or stands before the refusal's store. */
  predicate BeforeRefusal(s: State, t: nat, n: nat) {
    t in s.c.disp && (s.c.disp[t] == Accepting(n) || s.c.disp[t] == ReadingStop(n) || s.c.disp[t] == Refusing(n))
  }

  /** A dispatch called after the stop is refused: over every run that leaves the node to
      it, the node reads STOPPED from the refusal's store on, in particular once the call
      has returned, it is never exchanged, and no accepted call is recorded for it. */
  lemma RefusedReadsStopped(s: State, t: nat, n: nat, run: seq<Action>)
    requires Reachable(s) && s.m.stop && Enabled(s, Begin(t, n))
    requires Legal(Step(s, Begin(t, n)), run) && LeavesNode(run, n)
    ensures var r := After(Step(s, Begin(t, n)), run);
            && n in r.m.nodes && (BeforeRefusal(r, t, n) || r.m.nodes[n].completion == Stopped)
            && r.h.calls == s.h.calls && |s.h.log| <= |r.h.log|
            && forall k | |s.h.log| <= k < |r.h.log| :: r.h.log[k] != Item(t, n) && !Carries(r.h.log[k], n)
  {
    ReachableInv(s);
    var b := Step(s, Begin(t, n));
    StopClosesTheInbox(b, run);
    var g := FollowDispatch(s, t, n, run);
  }

  // ----- from a node's words back to its last dispatch -----

  /** Step i of the run is the last dispatch of the node, and the node has stood since. */
  predicate LastCall(run: seq<Action>, n: nat, i: nat, t: nat) {
    i < |run| && run[i] == Begin(t, n) && LeavesNode(run[i + 1..], n)
  }

  /** No dispatch of the node has been called since it was built. */
  predicate Unbegun(s: State, n: nat) {
    n in s.m.nodes ==> s.m.nodes[n].completion == Pending && s.m.nodes[n].place == Free
  }

  lemma UnbegunStep(s: State, a: Action, n: nat)
    requires Inv(s) && Enabled(s, a) && Unbegun(s, n) && !(a.Begin? && a.n == n)
    ensures Unbegun(Step(s, a), n)
  {
    match a
    case Dispatch(u) =>
      if n in s.m.nodes { DispatchPasses(s, u, n); } else { assert ThreadOk(s, u); NoNewNode(s, u, n); }
    case LoopStep =>
      if n in s.m.nodes { LoopPasses(s, n); } else { NoNewNodeLoop(s, n); }
    case _ =>
  }

  lemma NoNewNode(s: State, u: nat, n: nat)
    requires u in s.c.disp && n !in s.m.nodes
    ensures n !in DispatchStep(s, u).m.nodes
  {
  }

  lemma NoNewNodeLoop(s: State, n: nat)
    requires n !in s.m.nodes
    ensures n !in LoopStepOf(s).m.nodes
  {
  }

  lemma {:induction false} FindLastCall(s: State, run: seq<Action>, n: nat) returns (found: bool, i: nat, t: nat)
    requires Inv(s) && Legal(s, run)
    ensures found ==> LastCall(run, n, i, t)
    ensures !found ==> Unbegun(After(s, run), n) || (LeavesNode(run, n) && !Unbegun(s, n))
    decreases |run|
  {
    found, i, t := false, 0, 0;
    if run != [] {
      var a := run[0];
      StepInv(s, a);
      found, i, t := FindLastCall(Step(s, a), run[1..], n);
      if found {
        i := i + 1;
        assert run[1..][i..] == run[i + 1..];
      } else if a.Begin? && a.n == n {
        if !Unbegun(After(s, run), n) { found, i, t := true, 0, a.t; }
      } else {
        if Unbegun(s, n) { UnbegunStep(s, a, n); }
        assert run == [a] + run[1..];
      }
    }
  }

  lemma {:induction false} SplitRun(s: State, run: seq<Action>, i: nat)
    requires Legal(s, run) && i <= |run|
    ensures Legal(s, run[..i]) && Legal(After(s, run[..i]), run[i..])
    ensures After(After(s, run[..i]), run[i..]) == After(s, run)
    decreases i
  {
    if i == 0 {
      assert run[..0] == [] && run[0..] == run;
    } else {
      SplitRun(Step(s, run[0]), run[1..], i - 1);
      assert run[..i][1..] == run[1..][..i - 1] && run[1..][i - 1..] == run[i..];
    }
  }

  /** The dispatch a settled or running node's words come from. */
  lemma LastDispatch(mode: WaitMode, run: seq<Action>, n: nat) returns (i: nat, t: nat, g: Stage)
    requires Legal(Init(mode), run)
    requires n in After(Init(mode), run).m.nodes && After(Init(mode), run).m.nodes[n].completion != Pending
    ensures LastCall(run, n, i, t) && Legal(Init(mode), run[..i])
    ensures Inv(After(Init(mode), run)) && Inv(After(Init(mode), run[..i]))
    ensures Stands(After(Init(mode), run[..i]), After(Init(mode), run), t, n, g)
    ensures After(Init(mode), run[..i]).h.log <= After(Init(mode), run).h.log
  {
    var z := Init(mode);
    InitInv(mode);
    RunInv(z, run);
    var found;
    found, i, t := FindLastCall(z, run, n);
    SplitRun(z, run, i);
    var b := After(z, run[..i]);
    RunInv(z, run[..i]);
    assert run[i..][0] == run[i] && run[i..][1..] == run[i + 1..];
    g := FollowDispatch(b, t, n, run[i + 1..]);
    LogGrows(b, run[i..]);
  }

  lemma {:induction false} LogGrows(s: State, run: seq<Action>)
    requires Inv(s) && Legal(s, run)
    ensures s.h.log <= After(s, run).h.log
    decreases |run|
  {
    if run != [] {
      SettledGrows(s, run[0]);
      StepInv(s, run[0]);
      LogGrows(Step(s, run[0]), run[1..]);
    }
  }

  lemma ItemsSplit(log: seq<Entry>, i: nat, j: nat)
    requires i <= j <= |log|
    ensures Items(log[..j]) == Items(log[..i]) + Items(log[i..j])
  {
    assert log[..j] == log[..i] + log[i..j];
    ItemsAppend(log[..i], log[i..j]);
  }

  /** A node below a position of the log stands in the items up to there at its own turn. */
  lemma ItemAtItsTurn(log: seq<Entry>, k: nat, j: nat)
    requires k < j <= |log| && log[k].Item?
    ensures |Items(log[..k])| < |Items(log[..j])| && Items(log[..j])[|Items(log[..k])|] == log[k].id
  {
    ItemsSnoc(log[..k], log[k]);
    assert log[..k + 1] == log[..k] + [log[k]];
    ItemsSplit(log, k + 1, j);
  }

  /** A node exchanged below the executed stretch of the log has run, at its own turn. */
  lemma ExchangedHasRun(b: State, s: State, k: nat)
    requires Inv(b) && Inv(s) && b.h.log <= s.h.log && |b.h.log| <= k < SettledTo(s) && s.h.log[k].Item?
    ensures |b.h.ran| <= |Items(s.h.log[..k])| < |s.h.ran| && s.h.ran[|Items(s.h.log[..k])|] == s.h.log[k].id
  {
    ExecutedNow(b);
    ExecutedNow(s);
    ItemAtItsTurn(s.h.log, k, Executed(s));
    ItemsSplit(s.h.log, Executed(b), k);
    assert b.h.log[..Executed(b)] == s.h.log[..Executed(b)];
  }

  /** DONE means run: whenever a node its caller may reuse reads DONE, its last dispatch
      was accepted after the call began, exchanged after that at a log position below the
      loop's place, and the loop has executed it at that position's turn. */
  lemma DoneHasRun(mode: WaitMode, run: seq<Action>, n: nat) returns (i: nat, t: nat, c: nat, k: nat)
    requires Legal(Init(mode), run)
    requires n in After(Init(mode), run).m.nodes && !Held(After(Init(mode), run), n)
    requires After(Init(mode), run).m.nodes[n].completion == Done
    ensures LastCall(run, n, i, t) && Legal(Init(mode), run[..i])
    ensures var b, s := After(Init(mode), run[..i]), After(Init(mode), run);
            && |b.h.calls| <= c < |s.h.calls| && s.h.calls[c] == (t, n)
            && |b.h.log| <= k < |s.h.log| && s.h.log[k] == Item(t, n) && k < SettledTo(s)
            && |b.h.ran| <= |Items(s.h.log[..k])| < |s.h.ran| && s.h.ran[|Items(s.h.log[..k])|] == n
  {
    var g;
    i, t, g := LastDispatch(mode, run, n);
    var b, s := After(Init(mode), run[..i]), After(Init(mode), run);
    SettledIsFree(s, n);
    c, k := g.c, g.k;
    ExchangedHasRun(b, s, k);
  }

  /** STOPPED means refused: whenever a node its caller may reuse reads STOPPED, the stop
      stands, and since its last dispatch was called none of it was accepted and it was
      never exchanged, so it has not run. */
  lemma StoppedWasRefused(mode: WaitMode, run: seq<Action>, n: nat) returns (i: nat, t: nat)
    requires Legal(Init(mode), run)
    requires n in After(Init(mode), run).m.nodes && !Held(After(Init(mode), run), n)
    requires After(Init(mode), run).m.nodes[n].completion == Stopped
    ensures LastCall(run, n, i, t) && Legal(Init(mode), run[..i])
    ensures var b, s := After(Init(mode), run[..i]), After(Init(mode), run);
            s.m.stop && Uncalled(b, s, n) && Unlogged(b, s, n)
  {
    var g;
    i, t, g := LastDispatch(mode, run, n);
    var s := After(Init(mode), run);
    SettledIsFree(s, n);
  }

  // ----- one dispatch from beginning to end -----

  /** One call of `dispatch` and k accesses of it. */
  predicate OneCall(run: seq<Action>, t: nat, n: nat, k: nat) {
    |run| == k + 1 && run[0] == Begin(t, n) && forall a | a in run[1..] :: a == Action.Dispatch(t)
  }

  /** The call and its accept: the node is in thread t's hands, before the stop read. */
  ghost function Entered(s: State, t: nat, n: nat): State
    requires n in s.m.nodes
  {
    s.(m := s.m.(nodes := s.m.nodes[n := s.m.nodes[n].(place := InHand(t))], acceptCount := s.m.acceptCount + 1),
       c := s.c.(disp := s.c.disp[t := ReadingStop(n)]))
  }

  lemma EnteredAlone(s: State, t: nat, n: nat, rest: seq<Action>) returns (run: seq<Action>)
    requires Enabled(s, Begin(t, n)) && Legal(Entered(s, t, n), rest)
    requires forall a | a in rest :: a == Action.Dispatch(t)
    ensures OneCall(run, t, n, |rest| + 1) && Legal(s, run) && After(s, run) == After(Entered(s, t, n), rest)
  {
    var s1 := Step(s, Begin(t, n));
    assert Step(s1, Action.Dispatch(t)).c.disp == Entered(s, t, n).c.disp;
    var rest1 := StepFirst(s1, Action.Dispatch(t), rest);
    run := StepFirst(s, Begin(t, n), rest1);
    assert run[1..] == rest1;
  }

  lemma TurnedAwayAlone(s: State, t: nat, n: nat) returns (run: seq<Action>)
    requires t in s.c.disp && s.c.disp[t] == ReadingStop(n) && s.m.stop && n in s.m.nodes
    ensures |run| == 3 && (forall a | a in run :: a == Action.Dispatch(t)) && Legal(s, run)
    ensures After(s, run) ==
            s.(m := s.m.(nodes := s.m.nodes[n := s.m.nodes[n].(completion := Stopped, place := Free)],
                         acceptCount := s.m.acceptCount - 1),
               c := s.c.(disp := s.c.disp - {t}))
  {
    var a := Action.Dispatch(t);
    var s1 := Step(s, a);
    var s2 := Step(s1, a);
    var s3 := Step(s2, a);
    assert s3.c.disp == s.c.disp - {t};
    run := StepFirst(s2, a, []);
    run := StepFirst(s1, a, run);
    run := StepFirst(s, a, run);
  }

  /** A refused call, with nothing else moving, changes nothing but the node's completion. */
  lemma RefusedAlone(s: State, t: nat, n: nat) returns (run: seq<Action>)
    requires Inv(s) && Enabled(s, Begin(t, n)) && s.m.stop
    ensures OneCall(run, t, n, 4) && Legal(s, run)
    ensures After(s, run) == s.(m := s.m.(nodes := s.m.nodes[n := s.m.nodes[n].(completion := Stopped)]))
  {
    SettledIsFree(s, n);
    run := TurnedAwayAlone(Entered(s, t, n), t, n);
    run := EnteredAlone(s, t, n, run);
    assert After(s, run).c.disp == s.c.disp;
  }

  /** What an accepted call's last accesses leave: the link, the count and the wake. */
  lemma LinkedAlone(s: State, t: nat, prev: Ptr, n: nat, at: nat) returns (run: seq<Action>)
    requires t in s.c.disp && s.c.disp[t] == Linking(prev, n, at)
    ensures |run| == 3 && (forall a | a in run :: a == Action.Dispatch(t)) && Legal(s, run)
    ensures After(s, run) ==
            s.(m := s.m.(nodes := SetNext(s.m.nodes, prev, Node(n)),
                         stubNext := if prev == Stub then Node(n) else s.m.stubNext,
                         dispatchCount := s.m.dispatchCount + 1, wake := true),
               c := s.c.(disp := s.c.disp - {t}), h := s.h.(owed := s.h.owed - {at}))
  {
    var a := Action.Dispatch(t);
    var s1 := Step(s, a);
    var s2 := Step(s1, a);
    var s3 := Step(s2, a);
    assert s3.c.disp == s.c.disp - {t};
    run := StepFirst(s2, a, []);
    run := StepFirst(s1, a, run);
    run := StepFirst(s, a, run);
  }

  /** The state in which an accepted call stands before its link store: the node, reset
      and stamped, is the tail. */
  ghost function Exchanged(s: State, t: nat, n: nat): State
    requires |s.h.log| > 0
  {
    s.(m := s.m.(nodes := s.m.nodes[n := NodeWords(Null, Pending, true, InChain(|s.h.log|))],
                 tail := Node(n), acceptCount := s.m.acceptCount + 1),
       c := s.c.(disp := s.c.disp[t := Linking(s.m.tail, n, |s.h.log| - 1)]),
       h := s.h.(log := s.h.log + [Item(t, n)], calls := s.h.calls + [(t, n)],
                 owed := s.h.owed[|s.h.log| - 1 := Producer(t)]))
  }

  /** From the stop read to the node's stamp. */
  lemma StampedAlone(s: State, t: nat, n: nat, r: State, rest: seq<Action>) returns (run: seq<Action>)
    requires t in s.c.disp && s.c.disp[t] == ReadingStop(n) && !s.m.stop && n in s.m.nodes
    requires r == s.(m := s.m.(nodes := s.m.nodes[n := s.m.nodes[n].(completion := Pending, accepted := true)]),
                     c := s.c.(disp := s.c.disp[t := Clearing(n)]), h := s.h.(calls := s.h.calls + [(t, n)]))
    requires Legal(r, rest) && forall a | a in rest :: a == Action.Dispatch(t)
    ensures |run| == |rest| + 3 && (forall a | a in run :: a == Action.Dispatch(t)) && Legal(s, run)
    ensures After(s, run) == After(r, rest)
  {
    var a := Action.Dispatch(t);
    var s1 := Step(s, a);
    var s2 := Step(s1, a);
    var s3 := Step(s2, a);
    assert s3.c.disp == r.c.disp && s3.m.nodes == r.m.nodes;
    run := StepFirst(s2, a, rest);
    run := StepFirst(s1, a, run);
    run := StepFirst(s, a, run);
  }

  /** From the link's clearing to the tail exchange. */
  lemma ClearedAlone(s: State, t: nat, n: nat, r: State, rest: seq<Action>) returns (run: seq<Action>)
    requires t in s.c.disp && s.c.disp[t] == Clearing(n) && n in s.m.nodes && |s.h.log| > 0
    requires r == s.(m := s.m.(nodes := s.m.nodes[n := s.m.nodes[n].(next := Null, place := InChain(|s.h.log|))],
                               tail := Node(n)),
                     c := s.c.(disp := s.c.disp[t := Linking(s.m.tail, n, |s.h.log| - 1)]),
                     h := s.h.(log := s.h.log + [Item(t, n)], owed := s.h.owed[|s.h.log| - 1 := Producer(t)]))
    requires Legal(r, rest) && forall a | a in rest :: a == Action.Dispatch(t)
    ensures |run| == |rest| + 2 && (forall a | a in run :: a == Action.Dispatch(t)) && Legal(s, run)
    ensures After(s, run) == After(r, rest)
  {
    var a := Action.Dispatch(t);
    var s1 := Step(s, a);
    var s2 := Step(s1, a);
    assert s2.c.disp == r.c.disp && s2.m.nodes == r.m.nodes;
    run := StepFirst(s1, a, rest);
    run := StepFirst(s, a, run);
  }

  lemma ExchangedAlone(s: State, t: nat, n: nat, rest: seq<Action>) returns (run: seq<Action>)
    requires Inv(s) && Enabled(s, Begin(t, n)) && !s.m.stop
    requires Legal(Exchanged(s, t, n), rest) && |rest| == 3 && forall a | a in rest :: a == Action.Dispatch(t)
    ensures OneCall(run, t, n, 9) && Legal(s, run) && After(s, run) == After(Exchanged(s, t, n), rest)
  {
    var s1, x := Entered(s, t, n), Exchanged(s, t, n);
    var s2 := s1.(m := s1.m.(nodes := s1.m.nodes[n := s1.m.nodes[n].(completion := Pending, accepted := true)]),
                  c := s1.c.(disp := s1.c.disp[t := Clearing(n)]), h := s1.h.(calls := s1.h.calls + [(t, n)]));
    assert x.m.nodes == s2.m.nodes[n := s2.m.nodes[n].(next := Null, place := InChain(|s.h.log|))];
    assert x.c.disp == s2.c.disp[t := Linking(s.m.tail, n, |s.h.log| - 1)];
    run := ClearedAlone(s2, t, n, x, rest);
    run := StampedAlone(s1, t, n, s2, run);
    run := EnteredAlone(s, t, n, run);
  }

  /** An accepted call, with nothing else moving: the node is reset, stamped and the tail,
      its predecessor links to it, both counts have grown by one and the wake stands. */
  lemma AcceptedAlone(s: State, t: nat, n: nat) returns (run: seq<Action>)
    requires Inv(s) && Enabled(s, Begin(t, n)) && !s.m.stop
    ensures OneCall(run, t, n, 9) && Legal(s, run)
    ensures var r := After(s, run);
            && r.m == s.m.(nodes := r.m.nodes, stubNext := r.m.stubNext, tail := Node(n), wake := true,
                           acceptCount := s.m.acceptCount + 1, dispatchCount := s.m.dispatchCount + 1)
            && r.c == s.c && r.h == s.h.(log := s.h.log + [Item(t, n)], calls := s.h.calls + [(t, n)])
            && (s.m.tail == Stub || r.m.stubNext == s.m.stubNext) && NextOf(r, s.m.tail) == Node(n)
            && r.m.nodes.Keys == s.m.nodes.Keys && r.m.nodes[n] == NodeWords(Null, Pending, true, InChain(|s.h.log|))
            && forall m | m in s.m.nodes && m != n ::
                 r.m.nodes[m] == if Node(m) == s.m.tail then s.m.nodes[m].(next := Node(n)) else s.m.nodes[m]
  {
    SettledIsFree(s, n);
    EntryAt(s, |s.h.log| - 1);
    run := LinkedAlone(Exchanged(s, t, n), t, s.m.tail, n, |s.h.log| - 1);
    run := ExchangedAlone(s, t, n, run);
    var r := After(s, run);
    assert r.c.disp == s.c.disp;
    assert r.h.owed == s.h.owed;
  }
}
