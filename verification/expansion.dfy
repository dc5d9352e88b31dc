/** Family expansion: every argument list of every family crossed with its thread counts,
    the first of each name kept, grouped stably by suite in first-appearance order. */
module Expansion {
  import opened Common
  import opened Names

  /** A registered family; `placement` is the preset it names, if any. */
  datatype Entry = Entry(name: string, labels: seq<string>, args: seq<seq<int>>, threadCounts: seq<int>, placement: Option<string>)

  datatype Instance = Instance(name: string, suite: string, caseName: string, family: nat,
                               arguments: seq<int>, threadCount: int, preset: nat)

  datatype Outcome = Listed(list: seq<Instance>) | UnknownPreset(family: nat)

  /** What expansion depends on beside the registry: how a preset's name parses, and the
      preset of a family that names none. */
  datatype Presets = Presets(parse: string -> Option<nat>, fallback: nat)

  /** One list of a family: of the family's arity, with a label for each argument or none. */
  predicate ListOk(e: Entry, n: nat) {
    n < |Lists(e)| && |Lists(e)[n]| == |Lists(e)[0]| && (e.labels == [] || |e.labels| == |Lists(e)[n]|)
  }

  predicate EntryOk(e: Entry) {
    (forall n: nat | n < |Lists(e)| :: ListOk(e, n)) && forall t | t in e.threadCounts :: t >= 1
  }

  // ----- the simple form -----

  /** A family that states no list has one instance with no arguments a thread count. */
  function Lists(e: Entry): seq<seq<int>> {
    if e.args == [] then [[]] else e.args
  }

  predicate Parses(presets: Presets, e: Entry) {
    e.placement.Some? ==> presets.parse(e.placement.value).Some?
  }

  function PresetOf(presets: Presets, e: Entry): nat {
    if e.placement.Some? && presets.parse(e.placement.value).Some? then presets.parse(e.placement.value).value
    else presets.fallback
  }

  function MakeInstance(e: Entry, family: nat, preset: nat, arguments: seq<int>, threadCount: int): Instance {
    var name := NameOf(e.name, e.labels, arguments, threadCount);
    Instance(name, SuiteOf(e.name), CaseOf(e.name, name), family, arguments, threadCount, preset)
  }

  function Counts(e: Entry, family: nat, preset: nat, arguments: seq<int>): (r: seq<Instance>)
    ensures |r| == |e.threadCounts|
    ensures forall k | 0 <= k < |r| :: r[k] == MakeInstance(e, family, preset, arguments, e.threadCounts[k])
  {
    seq(|e.threadCounts|, k requires 0 <= k < |e.threadCounts| =>
      MakeInstance(e, family, preset, arguments, e.threadCounts[k]))
  }

  function Crossed(e: Entry, family: nat, preset: nat, n: nat): seq<Instance>
    requires n <= |Lists(e)|
  {
    if n == 0 then []
    else Crossed(e, family, preset, n - 1) + Counts(e, family, preset, Lists(e)[n - 1])
  }

  /** Every instance the first `n` families ask for, in registration order. */
  function Asked(presets: Presets, entries: seq<Entry>, n: nat): seq<Instance>
    requires n <= |entries|
  {
    if n == 0 then []
    else
      var e := entries[n - 1];
      Asked(presets, entries, n - 1) + Crossed(e, n - 1, PresetOf(presets, e), |Lists(e)|)
  }

  predicate Named(list: seq<Instance>, name: string) {
    exists i | i in list :: i.name == name
  }

  /** What one more asked instance leaves. */
  function KeepOne(kept: seq<Instance>, i: Instance): seq<Instance> {
    if Named(kept, i.name) then kept else kept + [i]
  }

  /** The first of each name among the first `n`. */
  function KeepFirst(list: seq<Instance>, n: nat): seq<Instance>
    requires n <= |list|
  {
    if n == 0 then [] else KeepOne(KeepFirst(list, n - 1), list[n - 1])
  }

  function Kept(list: seq<Instance>): seq<Instance> {
    KeepFirst(list, |list|)
  }

  function OfSuite(list: seq<Instance>, suite: string): seq<Instance>
    decreases |list|
  {
    if list == [] then []
    else
      var rest := OfSuite(list[..|list| - 1], suite);
      var last := list[|list| - 1];
      if last.suite == suite then rest + [last] else rest
  }

  /** The suites of the first `n` families, each where it first appears. */
  function Suites(entries: seq<Entry>, n: nat): seq<string>
    requires n <= |entries|
  {
    if n == 0 then []
    else
      var rest := Suites(entries, n - 1);
      var suite := SuiteOf(entries[n - 1].name);
      if suite in rest then rest else rest + [suite]
  }

  function Grouped(list: seq<Instance>, suites: seq<string>): seq<Instance>
    decreases |suites|
  {
    if suites == [] then []
    else Grouped(list, suites[..|suites| - 1]) + OfSuite(list, suites[|suites| - 1])
  }

  function FirstUnknown(presets: Presets, entries: seq<Entry>, from: nat): Option<nat>
    requires from <= |entries|
    decreases |entries| - from
  {
    if from == |entries| then None
    else if !Parses(presets, entries[from]) then Some(from)
    else FirstUnknown(presets, entries, from + 1)
  }

  /** `expandRegistry`, said plainly. */
  function Expanded(presets: Presets, entries: seq<Entry>): Outcome {
    match FirstUnknown(presets, entries, 0)
    case Some(family) => UnknownPreset(family)
    case None => Listed(Grouped(Kept(Asked(presets, entries, |entries|)), Suites(entries, |entries|)))
  }

  // ----- the loops -----

  lemma {:induction false} OfSuiteIs(list: seq<Instance>, suite: string)
    ensures forall i :: i in OfSuite(list, suite) <==> i in list && i.suite == suite
    decreases |list|
  {
    if list != [] {
      OfSuiteIs(list[..|list| - 1], suite);
      assert list == list[..|list| - 1] + [list[|list| - 1]];
    }
  }

  ghost predicate BlockOk(blocks: seq<seq<Instance>>, suites: seq<string>, kept: seq<Instance>, k: nat) {
    k < |blocks| && k < |suites| && blocks[k] == OfSuite(kept, suites[k])
  }

  ghost predicate HasBlock(suites: seq<string>, kept: seq<Instance>, i: nat) {
    i < |kept| && kept[i].suite in suites
  }

  predicate Differ(suites: seq<string>, i: nat, j: nat) {
    i < |suites| && j < |suites| && suites[i] != suites[j]
  }

  ghost predicate Apart(suites: seq<string>) {
    forall i: nat, j: nat | i < j < |suites| :: Differ(suites, i, j)
  }

  lemma ApartSplit(suites: seq<string>)
    requires Apart(suites) && suites != []
    ensures Apart(suites[..|suites| - 1]) && suites[|suites| - 1] !in suites[..|suites| - 1]
  {
    var front := suites[..|suites| - 1];
    forall i: nat, j: nat | i < j < |front| ensures Differ(front, i, j) { assert Differ(suites, i, j); }
    forall i: nat | i < |front| ensures front[i] != suites[|suites| - 1] { assert Differ(suites, i, |suites| - 1); }
  }

  lemma ApartAppend(suites: seq<string>, suite: string)
    requires Apart(suites) && suite !in suites
    ensures Apart(suites + [suite])
  {
    var more := suites + [suite];
    forall i: nat, j: nat | i < j < |more| ensures Differ(more, i, j) {
      if j < |suites| { assert Differ(suites, i, j); }
    }
  }

  /** The blocks hold the kept instances, each in the block of its suite. */
  ghost predicate Blocked(blocks: seq<seq<Instance>>, suites: seq<string>, kept: seq<Instance>) {
    && |blocks| == |suites| && Apart(suites)
    && (forall k: nat | k < |suites| :: BlockOk(blocks, suites, kept, k))
    && (forall i: nat | i < |kept| :: HasBlock(suites, kept, i))
  }

  /** `hasDuplicateInstance`. */
  method HasDuplicate(blocks: seq<seq<Instance>>, suites: seq<string>, ghost kept: seq<Instance>, name: string)
    returns (found: bool)
    requires Blocked(blocks, suites, kept)
    ensures found == Named(kept, name)
  {
    for b := 0 to |blocks|
      invariant forall k: nat | k < b :: !Named(blocks[k], name)
    {
      for i := 0 to |blocks[b]|
        invariant forall j: nat | j < i :: blocks[b][j].name != name
      {
        if blocks[b][i].name == name {
          OfSuiteIs(kept, suites[b]);
          assert BlockOk(blocks, suites, kept, b) && blocks[b][i] in blocks[b];
          return true;
        }
      }
    }
    forall i: nat | i < |kept| ensures kept[i].name != name {
      assert HasBlock(suites, kept, i);
      var k: nat :| k < |suites| && suites[k] == kept[i].suite;
      OfSuiteIs(kept, suites[k]);
      assert BlockOk(blocks, suites, kept, k) && kept[i] in blocks[k] && !Named(blocks[k], name);
    }
    found := false;
  }

  lemma BlockedGrows(blocks: seq<seq<Instance>>, suites: seq<string>, kept: seq<Instance>, slot: nat, i: Instance)
    requires Blocked(blocks, suites, kept) && slot < |suites| && i.suite == suites[slot]
    ensures Blocked(blocks[slot := blocks[slot] + [i]], suites, kept + [i])
  {
    var next := blocks[slot := blocks[slot] + [i]];
    forall k: nat | k < |suites| ensures BlockOk(next, suites, kept + [i], k) {
      assert BlockOk(blocks, suites, kept, k);
      if k < slot { assert Differ(suites, k, slot); } else if slot < k { assert Differ(suites, slot, k); }
    }
    forall k: nat | k < |kept + [i]| ensures HasBlock(suites, kept + [i], k) {
      if k < |kept| { assert HasBlock(suites, kept, k); }
    }
  }

  /** One instance, unless its name is taken. */
  method AddInstance(blocks: seq<seq<Instance>>, suites: seq<string>, ghost kept: seq<Instance>, slot: nat,
                     e: Entry, family: nat, preset: nat, arguments: seq<int>, threadCount: int, ghost made: Instance)
    returns (next: seq<seq<Instance>>)
    requires Blocked(blocks, suites, kept) && slot < |suites| && suites[slot] == SuiteOf(e.name)
    requires e.labels == [] || |e.labels| == |arguments|
    requires made == MakeInstance(e, family, preset, arguments, threadCount)
    ensures Blocked(next, suites, KeepOne(kept, made))
  {
    var name := InstanceName(e.name, e.labels, arguments, threadCount);
    var duplicate := HasDuplicate(blocks, suites, kept, name);
    if duplicate {
      return blocks;
    }
    var instance := Instance(name, SuiteOf(e.name), CaseOf(e.name, name), family, arguments, threadCount, preset);
    next := blocks[slot := blocks[slot] + [instance]];
    BlockedGrows(blocks, suites, kept, slot, instance);
  }

  /** The part of a list from a place on. */
  ghost predicate Holds(all: seq<Instance>, p: nat, part: seq<Instance>) {
    p + |part| <= |all| && all[p..p + |part|] == part
  }

  lemma MadeAt(all: seq<Instance>, p: nat, e: Entry, family: nat, preset: nat, arguments: seq<int>, n: nat)
    requires Holds(all, p, Counts(e, family, preset, arguments)) && n < |e.threadCounts|
    ensures p + n < |all| && all[p + n] == MakeInstance(e, family, preset, arguments, e.threadCounts[n])
  {
    assert all[p + n] == all[p..p + |e.threadCounts|][n];
  }

  /** One argument list crossed with the thread counts: the next part of what is asked. */
  method AddCounts(blocks: seq<seq<Instance>>, suites: seq<string>, ghost all: seq<Instance>, ghost p: nat,
                   ghost kept: seq<Instance>, slot: nat, e: Entry, family: nat, preset: nat, arguments: seq<int>)
    returns (next: seq<seq<Instance>>, ghost after: seq<Instance>)
    requires Holds(all, p, Counts(e, family, preset, arguments))
    requires kept == KeepFirst(all, p) && Blocked(blocks, suites, kept)
    requires slot < |suites| && suites[slot] == SuiteOf(e.name)
    requires e.labels == [] || |e.labels| == |arguments|
    ensures after == KeepFirst(all, p + |e.threadCounts|) && Blocked(next, suites, after)
  {
    next, after := blocks, kept;
    for n := 0 to |e.threadCounts|
      invariant after == KeepFirst(all, p + n) && Blocked(next, suites, after)
    {
      MadeAt(all, p, e, family, preset, arguments, n);
      next := AddInstance(next, suites, after, slot, e, family, preset, arguments, e.threadCounts[n], all[p + n]);
      after := KeepOne(after, all[p + n]);
    }
  }

  ghost predicate OffsetOk(all: seq<Instance>, at: seq<nat>, e: Entry, family: nat, preset: nat, n: nat) {
    && n < |Lists(e)| && n + 1 < |at| && at[n + 1] == at[n] + |e.threadCounts|
    && Holds(all, at[n], Counts(e, family, preset, Lists(e)[n]))
  }

  /** Where the instances of each list of a family stand in what is asked. */
  ghost predicate Offsets(all: seq<Instance>, at: seq<nat>, e: Entry, family: nat, preset: nat, upTo: nat) {
    |at| == upTo + 1 && at[upTo] <= |all| && forall n: nat | n < upTo :: OffsetOk(all, at, e, family, preset, n)
  }

  lemma OffsetsGrow(all: seq<Instance>, at: seq<nat>, e: Entry, family: nat, preset: nat, n: nat)
    requires n < |Lists(e)| && Offsets(all, at, e, family, preset, n)
    requires Holds(all, at[n], Counts(e, family, preset, Lists(e)[n]))
    ensures var more := at + [at[n] + |e.threadCounts|];
            Offsets(all, more, e, family, preset, n + 1) && more[0] == at[0]
  {
    var more := at + [at[n] + |e.threadCounts|];
    forall m: nat | m < n + 1 ensures OffsetOk(all, more, e, family, preset, m) {
      if m < n { assert OffsetOk(all, at, e, family, preset, m); }
    }
  }

  /** The crossed lists of a family, one behind the other from a place on. */
  lemma {:induction false} CrossedOffsets(all: seq<Instance>, p: nat, e: Entry, family: nat, preset: nat, n: nat)
    returns (at: seq<nat>)
    requires n <= |Lists(e)| && Holds(all, p, Crossed(e, family, preset, n))
    ensures Offsets(all, at, e, family, preset, n) && at[0] == p && at[n] == p + |Crossed(e, family, preset, n)|
  {
    if n == 0 {
      at := [p];
    } else {
      CrossedSplit(all, p, e, family, preset, n);
      at := CrossedOffsets(all, p, e, family, preset, n - 1);
      OffsetsGrow(all, at, e, family, preset, n - 1);
      at := at + [at[n - 1] + |e.threadCounts|];
    }
  }

  lemma CrossedSplit(all: seq<Instance>, p: nat, e: Entry, family: nat, preset: nat, n: nat)
    requires 0 < n <= |Lists(e)| && Holds(all, p, Crossed(e, family, preset, n))
    ensures var before, part := Crossed(e, family, preset, n - 1), Counts(e, family, preset, Lists(e)[n - 1]);
            && Holds(all, p, before) && Holds(all, p + |before|, part)
            && |Crossed(e, family, preset, n)| == |before| + |part| && p + |before| + |part| <= |all|
  {
    var before, part := Crossed(e, family, preset, n - 1), Counts(e, family, preset, Lists(e)[n - 1]);
    PartBefore(all, p, before, part);
    PartBehind(all, p, before, part);
  }

  lemma PartBefore(all: seq<Instance>, p: nat, before: seq<Instance>, part: seq<Instance>)
    requires Holds(all, p, before + part)
    ensures Holds(all, p, before)
  {
    assert all[p..p + |before|] == (before + part)[..|before|];
  }

  lemma PartBehind(all: seq<Instance>, p: nat, before: seq<Instance>, part: seq<Instance>)
    requires Holds(all, p, before + part)
    ensures Holds(all, p + |before|, part)
  {
    assert all[p + |before|..p + |before| + |part|] == (before + part)[|before|..];
  }

  /** The n-th list of a family. */
  method AddList(blocks: seq<seq<Instance>>, suites: seq<string>, ghost all: seq<Instance>, ghost at: seq<nat>,
                 ghost kept: seq<Instance>, slot: nat, e: Entry, family: nat, preset: nat, ghost n: nat, arguments: seq<int>)
    returns (next: seq<seq<Instance>>, ghost after: seq<Instance>)
    requires OffsetOk(all, at, e, family, preset, n) && ListOk(e, n) && arguments == Lists(e)[n]
    requires kept == KeepFirst(all, at[n]) && Blocked(blocks, suites, kept)
    requires slot < |suites| && suites[slot] == SuiteOf(e.name)
    ensures at[n + 1] <= |all| && after == KeepFirst(all, at[n + 1]) && Blocked(next, suites, after)
  {
    next, after := AddCounts(blocks, suites, all, at[n], kept, slot, e, family, preset, arguments);
  }

  /** One family: its lists, or the empty list where it states none. */
  method AddFamily(blocks: seq<seq<Instance>>, suites: seq<string>, ghost all: seq<Instance>, ghost at: seq<nat>,
                   ghost kept: seq<Instance>, slot: nat, e: Entry, family: nat, preset: nat)
    returns (next: seq<seq<Instance>>, ghost after: seq<Instance>)
    requires Offsets(all, at, e, family, preset, |Lists(e)|) && at[0] <= |all|
    requires kept == KeepFirst(all, at[0]) && Blocked(blocks, suites, kept)
    requires slot < |suites| && suites[slot] == SuiteOf(e.name) && EntryOk(e)
    ensures after == KeepFirst(all, at[|Lists(e)|]) && Blocked(next, suites, after)
  {
    if e.args == [] {
      assert ListOk(e, 0) && OffsetOk(all, at, e, family, preset, 0);
      next, after := AddList(blocks, suites, all, at, kept, slot, e, family, preset, 0, []);
      return;
    }
    next, after := blocks, kept;
    for n := 0 to |e.args|
      invariant at[n] <= |all| && after == KeepFirst(all, at[n]) && Blocked(next, suites, after)
    {
      assert ListOk(e, n) && OffsetOk(all, at, e, family, preset, n);
      next, after := AddList(next, suites, all, at, after, slot, e, family, preset, n, e.args[n]);
    }
  }

  lemma {:induction false} AskedGrows(presets: Presets, entries: seq<Entry>, n: nat, m: nat)
    requires n <= m <= |entries|
    ensures Asked(presets, entries, n) <= Asked(presets, entries, m)
    decreases m
  {
    if n < m { AskedGrows(presets, entries, n, m - 1); }
  }

  lemma AskedPart(presets: Presets, entries: seq<Entry>, n: nat)
    requires n < |entries|
    ensures var e, p := entries[n], |Asked(presets, entries, n)|;
            var mine := Crossed(e, n, PresetOf(presets, e), |Lists(e)|);
            Holds(Asked(presets, entries, |entries|), p, mine) && |Asked(presets, entries, n + 1)| == p + |mine|
  {
    AskedGrows(presets, entries, n + 1, |entries|);
    var before, after := Asked(presets, entries, n), Asked(presets, entries, n + 1);
    assert after[|before|..] == Crossed(entries[n], n, PresetOf(presets, entries[n]), |Lists(entries[n])|);
    assert Asked(presets, entries, |entries|)[|before|..|after|] == after[|before|..];
  }

  method FindSuite(suites: seq<string>, suite: string) returns (slot: nat)
    ensures slot <= |suites| && (slot < |suites| <==> suite in suites) && (slot < |suites| ==> suites[slot] == suite)
  {
    for k := 0 to |suites|
      invariant suite !in suites[..k]
    {
      if suites[k] == suite {
        return k;
      }
    }
    slot := |suites|;
  }

  lemma BlockedNewSuite(blocks: seq<seq<Instance>>, suites: seq<string>, kept: seq<Instance>, suite: string)
    requires Blocked(blocks, suites, kept) && suite !in suites
    ensures Blocked(blocks + [[]], suites + [suite], kept)
  {
    var more := suites + [suite];
    forall i | i in kept ensures i.suite != suite {
      var k: nat :| k < |kept| && kept[k] == i;
      assert HasBlock(suites, kept, k);
    }
    OfSuiteNone(kept, suite);
    forall k: nat | k < |more| ensures BlockOk(blocks + [[]], more, kept, k) {
      if k < |suites| { assert BlockOk(blocks, suites, kept, k); }
    }
    forall i: nat | i < |kept| ensures HasBlock(more, kept, i) { assert HasBlock(suites, kept, i); }
    ApartAppend(suites, suite);
  }

  /** The suite's block, appended when the suite is new. */
  method OpenSuite(blocks: seq<seq<Instance>>, suites: seq<string>, ghost kept: seq<Instance>, suite: string)
    returns (slot: nat, nextBlocks: seq<seq<Instance>>, nextSuites: seq<string>)
    requires Blocked(blocks, suites, kept)
    ensures Blocked(nextBlocks, nextSuites, kept) && slot < |nextSuites| && nextSuites[slot] == suite
    ensures nextSuites == if suite in suites then suites else suites + [suite]
  {
    nextBlocks, nextSuites := blocks, suites;
    slot := FindSuite(suites, suite);
    if slot == |suites| {
      BlockedNewSuite(blocks, suites, kept, suite);
      nextSuites := suites + [suite];
      nextBlocks := blocks + [[]];
    }
  }

  /** One family of the registry, its placement known. */
  method OneFamily(presets: Presets, entries: seq<Entry>, n: nat, ghost all: seq<Instance>, ghost p: nat,
                   ghost kept: seq<Instance>, blocks: seq<seq<Instance>>, suites: seq<string>)
    returns (nextBlocks: seq<seq<Instance>>, nextSuites: seq<string>, ghost q: nat, ghost after: seq<Instance>)
    requires n < |entries| && EntryOk(entries[n])
    requires Holds(all, p, Crossed(entries[n], n, PresetOf(presets, entries[n]), |Lists(entries[n])|))
    requires kept == KeepFirst(all, p) && Blocked(blocks, suites, kept)
    ensures nextSuites == if SuiteOf(entries[n].name) in suites then suites else suites + [SuiteOf(entries[n].name)]
    ensures q == p + |Crossed(entries[n], n, PresetOf(presets, entries[n]), |Lists(entries[n])|)| <= |all|
    ensures after == KeepFirst(all, q) && Blocked(nextBlocks, nextSuites, after)
  {
    var e := entries[n];
    var preset := PresetOf(presets, e);
    ghost var at := CrossedOffsets(all, p, e, n, preset, |Lists(e)|);
    q := at[|Lists(e)|];
    var slot;
    slot, nextBlocks, nextSuites := OpenSuite(blocks, suites, kept, SuiteOf(e.name));
    nextBlocks, after := AddFamily(nextBlocks, nextSuites, all, at, kept, slot, e, n, preset);
  }

  /** `expandRegistry`. */
  method ExpandRegistry(presets: Presets, entries: seq<Entry>) returns (r: Outcome)
    requires forall e | e in entries :: EntryOk(e)
    ensures r == Expanded(presets, entries)
  {
    var suites: seq<string> := [];
    var blocks: seq<seq<Instance>> := [];
    ghost var all, p, kept := Asked(presets, entries, |entries|), 0, [];
    for n := 0 to |entries|
      invariant FirstUnknown(presets, entries, 0) == FirstUnknown(presets, entries, n)
      invariant suites == Suites(entries, n) && p == |Asked(presets, entries, n)| <= |all|
      invariant kept == KeepFirst(all, p) && Blocked(blocks, suites, kept)
    {
      if !Parses(presets, entries[n]) {
        return UnknownPreset(n);
      }
      AskedPart(presets, entries, n);
      blocks, suites, p, kept := OneFamily(presets, entries, n, all, p, kept, blocks, suites);
    }
    var list := Flatten(blocks, suites, kept);
    r := Listed(list);
  }

  /** The blocks one behind the other. */
  method Flatten(blocks: seq<seq<Instance>>, suites: seq<string>, ghost kept: seq<Instance>) returns (list: seq<Instance>)
    requires Blocked(blocks, suites, kept)
    ensures list == Grouped(kept, suites)
  {
    list := [];
    for b := 0 to |blocks|
      invariant list == Grouped(kept, suites[..b])
    {
      assert suites[..b + 1][..b] == suites[..b] && BlockOk(blocks, suites, kept, b);
      list := list + blocks[b];
    }
    assert suites[..|blocks|] == suites;
  }

  // ----- what the list is -----

  predicate UniqueNames(list: seq<Instance>) {
    forall i, j | 0 <= i < j < |list| :: list[i].name != list[j].name
  }

  lemma NamedUpTo(list: seq<Instance>, n: nat, name: string)
    requires n < |list|
    ensures Named(list[..n + 1], name) <==> Named(list[..n], name) || list[n].name == name
  {
    assert list[..n + 1] == list[..n] + [list[n]];
  }

  /** No two kept instances share a name, each asked name is kept, and the one kept is the
      first that asked for it. */
  lemma {:induction false} KeepFirstIs(list: seq<Instance>, n: nat)
    requires n <= |list|
    ensures UniqueNames(KeepFirst(list, n))
    ensures forall name :: Named(KeepFirst(list, n), name) <==> Named(list[..n], name)
    ensures forall i | i in KeepFirst(list, n) :: exists k: nat :: k < n && list[k] == i && !Named(list[..k], i.name)
  {
    if n > 0 {
      KeepFirstIs(list, n - 1);
      var before, last := KeepFirst(list, n - 1), list[n - 1];
      forall name ensures Named(KeepFirst(list, n), name) <==> Named(list[..n], name) {
        NamedUpTo(list, n - 1, name);
      }
      forall i | 0 <= i < |before| && !Named(before, last.name) ensures before[i].name != last.name {
        assert before[i] in before;
      }
    }
  }

  lemma {:induction false} GroupedIs(list: seq<Instance>, suites: seq<string>)
    ensures forall i :: i in Grouped(list, suites) <==> i in list && i.suite in suites
    decreases |suites|
  {
    if suites != [] {
      GroupedIs(list, suites[..|suites| - 1]);
      OfSuiteIs(list, suites[|suites| - 1]);
      assert suites == suites[..|suites| - 1] + [suites[|suites| - 1]];
    }
  }

  lemma {:induction false} OfSuiteUnique(list: seq<Instance>, suite: string)
    requires UniqueNames(list)
    ensures UniqueNames(OfSuite(list, suite))
    decreases |list|
  {
    if list != [] {
      var front := list[..|list| - 1];
      OfSuiteUnique(front, suite);
      OfSuiteIs(front, suite);
      var rest := OfSuite(front, suite);
      forall i | 0 <= i < |rest| ensures rest[i].name != list[|list| - 1].name {
        assert rest[i] in front;
      }
    }
  }

  lemma {:induction false} GroupedUnique(list: seq<Instance>, suites: seq<string>)
    requires UniqueNames(list) && Apart(suites)
    ensures UniqueNames(Grouped(list, suites))
    decreases |suites|
  {
    if suites != [] {
      var front, last := suites[..|suites| - 1], suites[|suites| - 1];
      ApartSplit(suites);
      GroupedUnique(list, front);
      GroupedIs(list, front);
      OfSuiteUnique(list, last);
      OfSuiteIs(list, last);
      var before, behind := Grouped(list, front), OfSuite(list, last);
      forall i, j | 0 <= i < |before| && 0 <= j < |behind| ensures before[i].name != behind[j].name {
        assert before[i] in before && behind[j] in behind;
      }
    }
  }

  lemma OfSuiteJoins(a: seq<Instance>, b: seq<Instance>, suite: string)
    ensures OfSuite(a + b, suite) == OfSuite(a, suite) + OfSuite(b, suite)
    decreases |b|
  {
    if b == [] {
      assert a + b == a;
    } else {
      assert (a + b)[..|a + b| - 1] == a + b[..|b| - 1];
      OfSuiteJoins(a, b[..|b| - 1], suite);
    }
  }

  lemma {:induction false} OfSuiteAgain(list: seq<Instance>, one: string, suite: string)
    ensures OfSuite(OfSuite(list, one), suite) == if one == suite then OfSuite(list, suite) else []
    decreases |list|
  {
    if list != [] {
      var front, last := list[..|list| - 1], list[|list| - 1];
      OfSuiteAgain(front, one, suite);
    }
  }

  lemma GroupedLast(list: seq<Instance>, front: seq<string>, last: string, suite: string)
    ensures OfSuite(Grouped(list, front + [last]), suite)
         == OfSuite(Grouped(list, front), suite) + (if last == suite then OfSuite(list, suite) else [])
  {
    assert (front + [last])[..|front|] == front;
    OfSuiteJoins(Grouped(list, front), OfSuite(list, last), suite);
    OfSuiteAgain(list, last, suite);
  }

  /** Grouping is stable: within a suite nothing moves. */
  lemma {:induction false} GroupedIsStable(list: seq<Instance>, suites: seq<string>, suite: string)
    requires Apart(suites)
    ensures OfSuite(Grouped(list, suites), suite) == if suite in suites then OfSuite(list, suite) else []
    decreases |suites|
  {
    if suites != [] {
      var front, last := suites[..|suites| - 1], suites[|suites| - 1];
      assert suites == front + [last];
      ApartSplit(suites);
      GroupedIsStable(list, front, suite);
      GroupedLast(list, front, last, suite);
      assert suite in suites <==> suite in front || suite == last;
    }
  }

  ghost predicate NoEarlierSuite(list: seq<Instance>, suites: seq<string>) {
    forall i, j | 0 <= i < j < |list| ::
      exists k: nat, m: nat :: k <= m < |suites| && suites[k] == list[i].suite && suites[m] == list[j].suite
  }

  /** And the suites stand in the order given, each in one run. */
  lemma {:induction false} GroupedInOrder(list: seq<Instance>, suites: seq<string>)
    ensures NoEarlierSuite(Grouped(list, suites), suites)
    decreases |suites|
  {
    if suites != [] {
      var front, last := suites[..|suites| - 1], suites[|suites| - 1];
      GroupedInOrder(list, front);
      GroupedIs(list, front);
      OfSuiteIs(list, last);
      var before, behind := Grouped(list, front), OfSuite(list, last);
      var all := before + behind;
      forall i, j | 0 <= i < j < |all|
        ensures exists k: nat, m: nat :: k <= m < |suites| && suites[k] == all[i].suite && suites[m] == all[j].suite
      {
        if j < |before| {
          var k: nat, m: nat :| k <= m < |front| && front[k] == before[i].suite && front[m] == before[j].suite;
          assert suites[k] == all[i].suite && suites[m] == all[j].suite;
        } else {
          assert all[j] in behind && suites[|front|] == all[j].suite;
          if i < |before| {
            assert before[i] in before;
            var k: nat :| k < |front| && front[k] == before[i].suite;
            assert suites[k] == all[i].suite;
          } else {
            assert all[i] in behind;
          }
        }
      }
    }
  }

  lemma {:induction false} SuitesApart(entries: seq<Entry>, n: nat)
    requires n <= |entries|
    ensures Apart(Suites(entries, n))
    ensures forall k: nat | k < n :: SuiteOf(entries[k].name) in Suites(entries, n)
  {
    if n > 0 {
      SuitesApart(entries, n - 1);
      var suite := SuiteOf(entries[n - 1].name);
      if suite !in Suites(entries, n - 1) { ApartAppend(Suites(entries, n - 1), suite); }
    }
  }

  /** An instance of a family, from one of its lists and one of its thread counts. */
  ghost predicate MadeBy(e: Entry, family: nat, preset: nat, i: Instance) {
    && i.arguments in Lists(e) && i.threadCount in e.threadCounts
    && i == MakeInstance(e, family, preset, i.arguments, i.threadCount)
  }

  lemma {:induction false} CrossedAre(e: Entry, family: nat, preset: nat, n: nat, i: Instance)
    requires n <= |Lists(e)| && i in Crossed(e, family, preset, n)
    ensures MadeBy(e, family, preset, i) && i.family == family
  {
    if i in Crossed(e, family, preset, n - 1) {
      CrossedAre(e, family, preset, n - 1, i);
    }
  }

  ghost predicate AskedBy(presets: Presets, entries: seq<Entry>, i: Instance) {
    i.family < |entries| && MadeBy(entries[i.family], i.family, PresetOf(presets, entries[i.family]), i)
  }

  /** Every instance asked for is one family's. */
  lemma {:induction false} AskedAre(presets: Presets, entries: seq<Entry>, n: nat, i: Instance)
    requires n <= |entries| && i in Asked(presets, entries, n)
    ensures AskedBy(presets, entries, i)
  {
    if n > 0 {
      if i in Asked(presets, entries, n - 1) {
        AskedAre(presets, entries, n - 1, i);
      } else {
        CrossedAre(entries[n - 1], n - 1, PresetOf(presets, entries[n - 1]), |Lists(entries[n - 1])|, i);
      }
    }
  }

  lemma {:induction false} OfSuiteNone(list: seq<Instance>, suite: string)
    requires forall i | i in list :: i.suite != suite
    ensures OfSuite(list, suite) == []
    decreases |list|
  {
    if list != [] { OfSuiteNone(list[..|list| - 1], suite); }
  }

  /** The names of the list `expandRegistry` leaves: none twice, every name that was asked
      for, each held by the first that asked. */
  lemma ExpandedKeepsFirst(presets: Presets, entries: seq<Entry>)
    requires Expanded(presets, entries).Listed?
    ensures var list, asked := Expanded(presets, entries).list, Asked(presets, entries, |entries|);
            && UniqueNames(list) && (forall name :: Named(list, name) <==> Named(asked, name))
            && (forall i | i in list :: exists k: nat :: k < |asked| && asked[k] == i && !Named(asked[..k], i.name))
  {
    var asked, suites := Asked(presets, entries, |entries|), Suites(entries, |entries|);
    var kept, list := Kept(asked), Grouped(Kept(asked), suites);
    KeepFirstIs(asked, |asked|);
    assert asked[..|asked|] == asked;
    SuitesApart(entries, |entries|);
    GroupedUnique(kept, suites);
    AllGrouped(presets, entries, kept, suites);
  }

  /** Its order: within every suite nothing moved, and the suites stand in the order their
      families registered, each in one run. */
  lemma ExpandedGroupsStably(presets: Presets, entries: seq<Entry>)
    requires Expanded(presets, entries).Listed?
    ensures var list, suites := Expanded(presets, entries).list, Suites(entries, |entries|);
            && (forall suite :: OfSuite(list, suite) == OfSuite(Kept(Asked(presets, entries, |entries|)), suite))
            && NoEarlierSuite(list, suites) && Apart(suites)
  {
    var kept, suites := Kept(Asked(presets, entries, |entries|)), Suites(entries, |entries|);
    SuitesApart(entries, |entries|);
    GroupedInOrder(kept, suites);
    AllGrouped(presets, entries, kept, suites);
    forall suite ensures OfSuite(Grouped(kept, suites), suite) == OfSuite(kept, suite) {
      GroupedIsStable(kept, suites, suite);
      if suite !in suites { OfSuiteNone(kept, suite); }
    }
  }

  lemma AllGrouped(presets: Presets, entries: seq<Entry>, kept: seq<Instance>, suites: seq<string>)
    requires kept == Kept(Asked(presets, entries, |entries|)) && suites == Suites(entries, |entries|)
    ensures forall i | i in kept :: i.suite in suites
    ensures forall i :: i in Grouped(kept, suites) <==> i in kept
  {
    var asked := Asked(presets, entries, |entries|);
    KeepFirstIs(asked, |asked|);
    SuitesApart(entries, |entries|);
    GroupedIs(kept, suites);
    forall i | i in kept ensures i.suite in suites {
      assert i in asked;
      AskedAre(presets, entries, |entries|, i);
    }
  }

  /** Two instances one family asks for clash only when they repeat its own arguments and
      thread count: labels and values never make two of them collide. */
  lemma FamilyNeverClashesWithItself(presets: Presets, entries: seq<Entry>, i: Instance, j: Instance)
    requires i in Asked(presets, entries, |entries|) && j in Asked(presets, entries, |entries|)
    requires i.family == j.family && i.family < |entries| && EntryOk(entries[i.family])
    ensures i.name == j.name <==> i.arguments == j.arguments && i.threadCount == j.threadCount
  {
    AskedAre(presets, entries, |entries|, i);
    AskedAre(presets, entries, |entries|, j);
    var e := entries[i.family];
    var m: nat :| m < |Lists(e)| && Lists(e)[m] == i.arguments;
    var n: nat :| n < |Lists(e)| && Lists(e)[n] == j.arguments;
    assert ListOk(e, m) && ListOk(e, n);
    NameTellsInstancesApart(e.name, e.labels, i.arguments, j.arguments, i.threadCount, j.threadCount);
  }
}
