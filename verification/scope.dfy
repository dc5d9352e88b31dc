/** The scope window: a two-point hard-stop recorder opened, closed and folded once. */
module ScopeWindow {
  import opened Spine
  import opened Layout
  import opened Table
  import opened Recorder
  import opened Fold

  lemma SampledNext(plan: Plan, log: seq<Action>, sources: seq<Source>, action: Action, source: Source)
    requires Sampled(plan, log, sources) && Reads(plan, action, source)
    ensures Sampled(plan, log + [action], sources + [source])
  {
  }

  lemma ClosedWindowOwes<V>(ops: Arith<V>, core: Core<V>, v: RecorderApi, log: seq<Action>,
                            sources: seq<Source>, i: nat, j: nat)
    requires Holds(v, log) && Addressed(v.plan) && Sampled(v.plan, log, sources) && v.dropped == 0
    requires i < j < v.count && Resolves(v.plan, core) && core.nodes != []
    ensures v.plan.groups != [] && v.count <= v.stride && j < |sources|
    ensures FoldCore(ops, core, v, i, j) == Owed(ops, v.plan, core, sources[i], sources[j])
  {
    LogicalRowIsSample(v, log, j);
    FoldIsOwed(ops, core, v, log, sources, i, j, sources[i], sources[j]);
  }

  class Scope {
    const recorder: Recorder
    var started: bool
    var finished: bool
    /** What each committed sample read. */
    ghost var sources: seq<Source>

    ghost predicate Valid()
      reads this, recorder, recorder.columns
    {
      && recorder.Valid() && !recorder.ring && recorder.capacity == 2 && Addressed(recorder.plan)
      && Sampled(recorder.plan, recorder.log, sources)
      && |sources| == (if finished then 2 else if started then 1 else 0) && (finished ==> started)
    }

    constructor (plan: Plan)
      requires Tiled(plan) && Addressed(plan)
      ensures Valid() && !started && !finished && sources == [] && recorder.plan == plan
      ensures fresh(recorder) && fresh(recorder.columns)
    {
      var minted := MintHardStop(plan, 2);
      recorder := minted;
      started, finished, sources := false, false, [];
    }

    method Start(action: Action, ghost source: Source)
      requires Valid() && !started && Reads(recorder.plan, action, source)
      modifies this, recorder, recorder.columns
      ensures Valid() && started && !finished && sources == [source]
    {
      SampledNext(recorder.plan, recorder.log, sources, action, source);
      var ok := recorder.HardStopSample(action);
      started := true;
      sources := sources + [source];
    }

    method Finish(action: Action, ghost source: Source)
      requires Valid() && started && !finished && Reads(recorder.plan, action, source)
      modifies this, recorder, recorder.columns
      ensures Valid() && finished && sources == old(sources) + [source]
    {
      SampledNext(recorder.plan, recorder.log, sources, action, source);
      var ok := recorder.HardStopSample(action);
      finished := true;
      sources := sources + [source];
    }

    /** `metricCore`: the fold of the closed window is what the two readings owe. */
    method ReadMetric<V>(ops: Arith<V>, core: Core<V>) returns (m: Metric<V>)
      requires Valid() && finished && Resolves(recorder.plan, core) && core.nodes != []
      ensures m == Owed(ops, recorder.plan, core, sources[0], sources[1])
    {
      ClosedWindowOwes(ops, core, recorder.View(), recorder.log, sources, 0, 1);
      m := FoldCore(ops, core, recorder.View(), 0, 1);
    }
  }
}
