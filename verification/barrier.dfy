/**
 The round a fixed set of participants meets on: `ContextBarrier::arriveAndWait`,
 one shared access a step, any interleaving, any number of rounds.
 */
module Barrier {

  /** Where one participant stands; each case names its next shared access. */
  datatype Participant =
    | Outside                    // m_generation.load, on the next call
    | Entered(round: nat)        // m_arrivalCount.fetch_add
    | Filled(round: nat)         // m_arrivalCount.store(0)
    | Releasing(round: nat)      // m_generation.fetch_add
    | Waiting(round: nat)        // the wait for another generation

  datatype State = State(
    arrivals: int,
    generation: nat,
    parts: seq<Participant>,
    // history
    arrived: seq<nat>,           // arrivals each participant has made
    left: seq<nat>,              // rounds each participant has left
    closer: int                  // the participant that filled the open round, or -1
  )

  function Init(expected: nat): State {
    State(0, 0, seq(expected, _ => Outside), seq(expected, _ => 0), seq(expected, _ => 0), -1)
  }

  predicate Shape(s: State) {
    |s.parts| == |s.arrived| == |s.left|
  }

  /** The wait is a guard; every other access is always possible. */
  predicate Enabled(s: State, i: nat) {
    Shape(s) && i < |s.parts| && (s.parts[i].Waiting? ==> s.generation != s.parts[i].round)
  }

  function Step(s: State, i: nat): State
    requires Enabled(s, i)
  {
    match s.parts[i]
    case Outside => s.(parts := s.parts[i := Entered(s.generation)])
    case Entered(e) =>
      var full := s.arrivals + 1 == |s.parts|;
      s.(arrivals := s.arrivals + 1, parts := s.parts[i := if full then Filled(e) else Waiting(e)],
         arrived := s.arrived[i := s.arrived[i] + 1], closer := if full then i else s.closer)
    case Filled(e) => s.(arrivals := 0, parts := s.parts[i := Releasing(e)])
    case Releasing(e) =>
      s.(generation := s.generation + 1, parts := s.parts[i := Outside], left := s.left[i := s.left[i] + 1], closer := -1)
    case Waiting(e) => s.(parts := s.parts[i := Outside], left := s.left[i := s.left[i] + 1])
  }

  ghost predicate Legal(s: State, run: seq<nat>)
    decreases |run|
  {
    run == [] || (Enabled(s, run[0]) && Legal(Step(s, run[0]), run[1..]))
  }

  ghost function After(s: State, run: seq<nat>): State
    requires Legal(s, run)
    decreases |run|
  {
    if run == [] then s else After(Step(s, run[0]), run[1..])
  }

  // ----- the invariant -----

  /** The participants that have arrived in the open round. */
  function InRound(s: State): set<nat>
    requires Shape(s)
  {
    set i: nat | i < |s.parts| && s.arrived[i] == s.generation + 1
  }

  ghost predicate PartOk(s: State, i: nat)
    requires Shape(s) && i < |s.parts|
  {
    match s.parts[i]
    case Outside => s.left[i] == s.generation && s.arrived[i] == s.generation
    case Entered(e) => e == s.generation && s.left[i] == e && s.arrived[i] == e
    case Waiting(e) => s.left[i] == e && s.arrived[i] == e + 1 && (e == s.generation || e + 1 == s.generation)
    case Filled(e) => s.closer == i && e == s.generation && s.left[i] == e && s.arrived[i] == e + 1
    case Releasing(e) => s.closer == i && e == s.generation && s.left[i] == e && s.arrived[i] == e + 1
  }

  ghost predicate Inv(s: State) {
    && Shape(s)
    && (forall i: nat {:trigger PartOk(s, i)} | i < |s.parts| :: PartOk(s, i))
    && -1 <= s.closer < |s.parts|
    && if s.closer >= 0 then
         && (s.parts[s.closer].Filled? || s.parts[s.closer].Releasing?)
         && (forall i: nat | i < |s.parts| :: s.arrived[i] == s.generation + 1)
         && s.arrivals == (if s.parts[s.closer].Filled? then |s.parts| else 0)
       else
         s.arrivals == |InRound(s)| && (|s.parts| > 0 ==> s.arrivals < |s.parts|)
  }

  /** A set of n indices below n holds them all. */
  lemma {:induction false} FullSet(a: set<nat>, n: nat)
    requires forall i | i in a :: i < n
    ensures |a| <= n
    ensures |a| == n ==> forall i: nat | i < n :: i in a
  {
    if n > 0 {
      var b := a - {n - 1};
      FullSet(b, n - 1);
      assert a <= b + {n - 1};
      if n - 1 in a { assert |a| == |b| + 1; } else { assert a == b; }
    }
  }

  lemma StepInv(s: State, i: nat)
    requires Inv(s) && Enabled(s, i)
    ensures Inv(Step(s, i))
  {
    var r := Step(s, i);
    assert PartOk(s, i);
    match s.parts[i]
    case Entered(e) => ArriveInv(s, i);
    case Releasing(e) => ReleaseInv(s, i);
    case _ =>
      forall j: nat | j < |r.parts| ensures PartOk(r, j) { assert PartOk(s, j); }
      assert InRound(r) == InRound(s);
  }

  lemma ArriveInv(s: State, i: nat)
    requires Inv(s) && Enabled(s, i) && s.parts[i].Entered?
    ensures Inv(Step(s, i))
  {
    var r := Step(s, i);
    assert PartOk(s, i);
    assert s.closer < 0;
    assert InRound(r) == InRound(s) + {i};
    FullSet(InRound(r), |r.parts|);
    forall j: nat | j < |r.parts| ensures PartOk(r, j) { assert PartOk(s, j); }
    if r.closer >= 0 {
      forall j: nat | j < |r.parts| ensures r.arrived[j] == r.generation + 1 { assert j in InRound(r); }
    }
  }

  lemma ReleaseInv(s: State, i: nat)
    requires Inv(s) && Enabled(s, i) && s.parts[i].Releasing?
    ensures Inv(Step(s, i))
  {
    var r := Step(s, i);
    assert PartOk(s, i);
    forall j: nat | j < |r.parts| ensures PartOk(r, j) { assert PartOk(s, j); }
    assert InRound(r) == {};
  }

  lemma {:induction false} RunInv(s: State, run: seq<nat>)
    requires Inv(s) && Legal(s, run)
    ensures Inv(After(s, run)) && |After(s, run).parts| == |s.parts|
    decreases |run|
  {
    if run != [] {
      StepInv(s, run[0]);
      RunInv(Step(s, run[0]), run[1..]);
    }
  }

  // ----- what every run keeps -----

  ghost predicate Reachable(expected: nat, s: State) {
    exists run :: Legal(Init(expected), run) && After(Init(expected), run) == s
  }

  lemma ReachableInv(expected: nat, s: State)
    requires Reachable(expected, s)
    ensures Inv(s) && |s.parts| == expected
  {
    var run :| Legal(Init(expected), run) && After(Init(expected), run) == s;
    RunInv(Init(expected), run);
  }

  /** The arrivals of one round never exceed the participants, before or after an arrival. */
  lemma NeverOverfull(expected: nat, s: State, i: nat)
    requires Reachable(expected, s) && Enabled(s, i)
    ensures 0 <= s.arrivals <= |s.parts| == expected
    ensures s.parts[i].Entered? ==> s.arrivals + 1 <= expected
  {
    ReachableInv(expected, s);
    assert PartOk(s, i);
  }

  /** Nobody leaves a round before every participant has arrived in it, and the generation
      it leaves under differs from the one it entered under. */
  lemma LeavesOnlyAFullRound(expected: nat, s: State, i: nat, j: nat)
    requires Reachable(expected, s) && Enabled(s, i) && j < expected
    requires s.parts[i].Waiting? || s.parts[i].Releasing?
    ensures Shape(s) && |s.parts| == expected && s.left[i] == s.parts[i].round && s.arrived[j] > s.parts[i].round
    ensures Step(s, i).generation != s.parts[i].round
  {
    ReachableInv(expected, s);
    assert PartOk(s, i);
    assert PartOk(s, j);
  }

  /** Completed rounds differ by at most one, and the generation has advanced exactly once
      for every round some participant has left. */
  lemma RoundsStayTogether(expected: nat, s: State, i: nat, j: nat)
    requires Reachable(expected, s) && i < expected && j < expected
    ensures Shape(s) && |s.parts| == expected && s.left[i] <= s.left[j] + 1
    ensures s.left[i] == s.generation || s.left[i] + 1 == s.generation
    ensures s.left[i] + 1 == s.generation ==> s.parts[i] == Waiting(s.generation - 1)
  {
    ReachableInv(expected, s);
    assert PartOk(s, i);
    assert PartOk(s, j);
  }

  lemma SomeoneMoves(s: State) returns (i: nat)
    requires Inv(s) && |s.parts| > 0
    ensures Enabled(s, i)
  {
    if s.closer >= 0 {
      i := s.closer;
    } else {
      i := Missing(InRound(s), |s.parts|);
      assert PartOk(s, i);
    }
  }

  /** No run of the barrier is ever stuck: some participant's next access is possible. */
  lemma NeverStuck(expected: nat, s: State)
    requires Reachable(expected, s) && expected > 0
    ensures exists i: nat :: i < expected && Enabled(s, i)
  {
    ReachableInv(expected, s);
    var _ := SomeoneMoves(s);
  }

  /** A set smaller than n misses an index below n. */
  lemma {:induction false} Missing(a: set<nat>, n: nat) returns (i: nat)
    requires |a| < n
    ensures i < n && i !in a
  {
    if n - 1 !in a {
      i := n - 1;
    } else {
      i := Missing(a - {n - 1}, n - 1);
    }
  }

  // ----- every round completes -----

  /** The accesses a participant is from the close of round g. */
  function StepsLeft(p: Participant, g: nat): nat {
    match p
    case Outside => 4
    case Entered(_) => 3
    case Filled(_) => 2
    case Releasing(_) => 1
    case Waiting(e) => if e == g then 0 else 5
  }

  function AllStepsLeft(parts: seq<Participant>, g: nat): nat {
    if parts == [] then 0 else StepsLeft(parts[0], g) + AllStepsLeft(parts[1..], g)
  }

  lemma {:induction false} OneMoves(parts: seq<Participant>, g: nat, i: nat, p: Participant)
    requires i < |parts|
    ensures AllStepsLeft(parts[i := p], g) == AllStepsLeft(parts, g) - StepsLeft(parts[i], g) + StepsLeft(p, g)
  {
    if i == 0 {
      assert parts[0 := p][1..] == parts[1..];
    } else {
      assert parts[i := p][1..] == parts[1..][i - 1 := p];
      OneMoves(parts[1..], g, i - 1, p);
    }
  }

  /** Every round can be completed: from any state of the barrier some participants' next
      accesses advance the generation by one, and then nobody's wait for the round before
      holds. */
  lemma {:induction false} RoundCompletes(s: State) returns (run: seq<nat>)
    requires Inv(s) && |s.parts| > 0
    ensures Legal(s, run) && After(s, run).generation == s.generation + 1
    ensures forall i: nat | i < |s.parts| :: Enabled(After(s, run), i)
    decreases AllStepsLeft(s.parts, s.generation)
  {
    var i := SomeoneMoves(s);
    var r := Step(s, i);
    StepInv(s, i);
    assert PartOk(s, i);
    if s.parts[i].Releasing? {
      run := [i];
      assert run[1..] == [];
      forall j: nat | j < |r.parts| ensures Enabled(r, j) { assert PartOk(s, j); }
    } else {
      OneMoves(s.parts, s.generation, i, r.parts[i]);
      var rest := RoundCompletes(r);
      run := [i] + rest;
      assert run[1..] == rest;
    }
  }
}
