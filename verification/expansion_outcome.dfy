/** What an expansion lists, said of the registry alone: every argument list with every thread
    count, in order; and which family stops it. */
module ExpansionOutcome {
  import opened Common
  import opened Names
  import opened Expansion

  /** The lists a family is expanded over: its own, or the empty one where it states none. */
  function ListCount(e: Entry): nat {
    if e.args == [] then 1 else |e.args|
  }

  /** `n` rows of `k` places. */
  function Rows(n: nat, k: nat): nat {
    if n == 0 then 0 else Rows(n - 1, k) + k
  }

  lemma {:induction false} RowsAre(n: nat, k: nat)
    ensures Rows(n, k) == n * k
  {
    if n > 0 { RowsAre(n - 1, k); }
  }

  /** The instances the first `n` families ask for: lists times counts, summed. */
  function Wanted(entries: seq<Entry>, n: nat): nat
    requires n <= |entries|
  {
    if n == 0 then 0 else Wanted(entries, n - 1) + Rows(ListCount(entries[n - 1]), |entries[n - 1].threadCounts|)
  }

  /** The instance of one family, one argument list and one thread count. */
  predicate IsInstance(presets: Presets, entries: seq<Entry>, n: nat, arguments: seq<int>, threadCount: int, i: Instance)
    requires n < |entries|
  {
    var e := entries[n];
    && i.family == n && i.arguments == arguments && i.threadCount == threadCount
    && i.name == NameOf(e.name, e.labels, arguments, threadCount)
    && i.suite == SuiteOf(e.name) && i.caseName == CaseOf(e.name, i.name)
    && (e.placement.None? ==> i.preset == presets.fallback)
    && (e.placement.Some? && presets.parse(e.placement.value).Some? ==> i.preset == presets.parse(e.placement.value).value)
  }

  /** Rows of equal length, one behind the other. */
  ghost predicate InRows(rows: seq<seq<Instance>>, k: nat, all: seq<Instance>)
    decreases |rows|
  {
    if rows == [] then all == []
    else
      var last := rows[|rows| - 1];
      && |last| == k <= |all| && all[|all| - k..] == last
      && InRows(rows[..|rows| - 1], k, all[..|all| - k])
  }

  lemma {:induction false} InRowsAt(rows: seq<seq<Instance>>, k: nat, all: seq<Instance>, l: nat, c: nat)
    requires InRows(rows, k, all)
    ensures |all| == Rows(|rows|, k)
    ensures l < |rows| && c < k ==> Rows(l, k) + c < |all| && |rows[l]| == k && all[Rows(l, k) + c] == rows[l][c]
    decreases |rows|
  {
    if rows != [] {
      var front, before := rows[..|rows| - 1], all[..|all| - k];
      InRowsAt(front, k, before, l, c);
      if l == |front| && c < k {
        assert all[|before| + c] == all[|all| - k..][c];
      }
    }
  }

  function RowsOf(e: Entry, family: nat, preset: nat, n: nat): seq<seq<Instance>>
    requires n <= |Lists(e)|
  {
    if n == 0 then [] else RowsOf(e, family, preset, n - 1) + [Counts(e, family, preset, Lists(e)[n - 1])]
  }

  lemma {:induction false} CrossedRows(e: Entry, family: nat, preset: nat, n: nat)
    requires n <= |Lists(e)|
    ensures InRows(RowsOf(e, family, preset, n), |e.threadCounts|, Crossed(e, family, preset, n))
    ensures |RowsOf(e, family, preset, n)| == n
  {
    if n > 0 {
      CrossedRows(e, family, preset, n - 1);
      var rows, all, last := RowsOf(e, family, preset, n), Crossed(e, family, preset, n), Counts(e, family, preset, Lists(e)[n - 1]);
      assert rows[..n - 1] == RowsOf(e, family, preset, n - 1) && rows[n - 1] == last;
      assert all[..|all| - |last|] == Crossed(e, family, preset, n - 1) && all[|all| - |last|..] == last;
    }
  }

  lemma {:induction false} RowIs(e: Entry, family: nat, preset: nat, n: nat, l: nat)
    requires l < n <= |Lists(e)|
    ensures l < |RowsOf(e, family, preset, n)| && RowsOf(e, family, preset, n)[l] == Counts(e, family, preset, Lists(e)[l])
  {
    CrossedRows(e, family, preset, n - 1);
    if l < n - 1 { RowIs(e, family, preset, n - 1, l); }
  }

  /** As many instances are asked as the families have lists times counts. */
  lemma {:induction false} AskedCount(presets: Presets, entries: seq<Entry>, n: nat)
    requires n <= |entries|
    ensures |Asked(presets, entries, n)| == Wanted(entries, n)
  {
    if n > 0 {
      AskedCount(presets, entries, n - 1);
      var e := entries[n - 1];
      CrossedRows(e, n - 1, PresetOf(presets, e), |Lists(e)|);
      InRowsAt(RowsOf(e, n - 1, PresetOf(presets, e), |Lists(e)|), |e.threadCounts|,
               Crossed(e, n - 1, PresetOf(presets, e), |Lists(e)|), 0, 0);
    }
  }

  /** The instance at a place of a family's own rows. */
  lemma FamilyRow(e: Entry, family: nat, preset: nat, l: nat, c: nat, k: nat)
    requires l < |Lists(e)| && c < |e.threadCounts| && k == Rows(l, |e.threadCounts|) + c
    ensures k < |Crossed(e, family, preset, |Lists(e)|)|
    ensures Crossed(e, family, preset, |Lists(e)|)[k] == MakeInstance(e, family, preset, Lists(e)[l], e.threadCounts[c])
  {
    var rows := RowsOf(e, family, preset, |Lists(e)|);
    CrossedRows(e, family, preset, |Lists(e)|);
    InRowsAt(rows, |e.threadCounts|, Crossed(e, family, preset, |Lists(e)|), l, c);
    RowIs(e, family, preset, |Lists(e)|, l);
  }

  lemma MadeIs(presets: Presets, entries: seq<Entry>, n: nat, arguments: seq<int>, threadCount: int)
    requires n < |entries|
    ensures IsInstance(presets, entries, n, arguments, threadCount,
                       MakeInstance(entries[n], n, PresetOf(presets, entries[n]), arguments, threadCount))
  {
  }

  lemma AskedNext(presets: Presets, entries: seq<Entry>, n: nat)
    requires n < |entries|
    ensures Asked(presets, entries, n + 1)
         == Asked(presets, entries, n) + Crossed(entries[n], n, PresetOf(presets, entries[n]), |Lists(entries[n])|)
  {
  }

  lemma PlaceIn(before: seq<Instance>, mine: seq<Instance>, all: seq<Instance>, p: nat, k: nat, i: Instance)
    requires before + mine <= all && p == |before| && k < |mine| && mine[k] == i
    ensures p + k < |all| && all[p + k] == i
  {
    assert all[p + k] == (before + mine)[p + k];
  }

  lemma PlaceAsked(presets: Presets, entries: seq<Entry>, n: nat, mine: seq<Instance>, k: nat, i: Instance)
    requires n < |entries| && k < |mine| && mine[k] == i
    requires mine == Crossed(entries[n], n, PresetOf(presets, entries[n]), |Lists(entries[n])|)
    ensures Stands(presets, entries, n, k, i)
  {
    AskedNext(presets, entries, n);
    AskedGrows(presets, entries, n + 1, |entries|);
    PlaceIn(Asked(presets, entries, n), mine, Asked(presets, entries, |entries|), |Asked(presets, entries, n)|, k, i);
  }

  /** The instance stands `k` places behind what the families before the n-th ask for. */
  ghost predicate Stands(presets: Presets, entries: seq<Entry>, n: nat, k: nat, i: Instance)
    requires n < |entries|
  {
    var p := |Asked(presets, entries, n)|;
    p + k < |Asked(presets, entries, |entries|)| && Asked(presets, entries, |entries|)[p + k] == i
  }

  lemma PlaceOf(presets: Presets, entries: seq<Entry>, n: nat, l: nat, c: nat, k: nat) returns (i: Instance)
    requires n < |entries| && l < ListCount(entries[n]) && c < |entries[n].threadCounts|
    requires k == Rows(l, |entries[n].threadCounts|) + c
    ensures Stands(presets, entries, n, k, i)
    ensures IsInstance(presets, entries, n, if entries[n].args == [] then [] else entries[n].args[l],
                       entries[n].threadCounts[c], i)
  {
    var e, preset := entries[n], PresetOf(presets, entries[n]);
    i := MakeInstance(e, n, preset, Lists(e)[l], e.threadCounts[c]);
    FamilyRow(e, n, preset, l, c, k);
    PlaceAsked(presets, entries, n, Crossed(e, n, preset, |Lists(e)|), k, i);
    MadeIs(presets, entries, n, Lists(e)[l], e.threadCounts[c]);
  }

  /** What is asked stands in order: families as registered, a family's lists in order, the
      thread counts of a list in order. */
  lemma AskedAt(presets: Presets, entries: seq<Entry>, n: nat, l: nat, c: nat, at: nat) returns (i: Instance)
    requires n < |entries| && l < ListCount(entries[n]) && c < |entries[n].threadCounts|
    requires at == Wanted(entries, n) + Rows(l, |entries[n].threadCounts|) + c
    ensures at < |Asked(presets, entries, |entries|)| && Asked(presets, entries, |entries|)[at] == i
    ensures IsInstance(presets, entries, n, if entries[n].args == [] then [] else entries[n].args[l],
                       entries[n].threadCounts[c], i)
  {
    var k := at - Wanted(entries, n);
    i := PlaceOf(presets, entries, n, l, c, k);
    AskedCount(presets, entries, n);
    StandsAt(presets, entries, n, k, at, i);
  }

  lemma StandsAt(presets: Presets, entries: seq<Entry>, n: nat, k: nat, at: nat, i: Instance)
    requires n < |entries| && Stands(presets, entries, n, k, i) && at == |Asked(presets, entries, n)| + k
    ensures at < |Asked(presets, entries, |entries|)| && Asked(presets, entries, |entries|)[at] == i
  {
  }

  /** Every argument list of every family is asked with every thread count. */
  lemma EveryCombinationIsAsked(presets: Presets, entries: seq<Entry>, n: nat, arguments: seq<int>, threadCount: int)
    requires n < |entries| && threadCount in entries[n].threadCounts
    requires if entries[n].args == [] then arguments == [] else arguments in entries[n].args
    ensures exists i :: i in Asked(presets, entries, |entries|) && IsInstance(presets, entries, n, arguments, threadCount, i)
  {
    var e := entries[n];
    var c: nat :| c < |e.threadCounts| && e.threadCounts[c] == threadCount;
    var l: nat := 0;
    if e.args != [] {
      l :| l < |e.args| && e.args[l] == arguments;
    }
    var i := AskedAt(presets, entries, n, l, c, Wanted(entries, n) + Rows(l, |e.threadCounts|) + c);
    assert i in Asked(presets, entries, |entries|);
  }

  /** So the list of an expansion holds a name for every argument list with every thread
      count: the instance's own, or an earlier one's of the same name. */
  lemma EveryCombinationIsListed(presets: Presets, entries: seq<Entry>, n: nat, arguments: seq<int>, threadCount: int)
    requires Expanded(presets, entries).Listed? && n < |entries| && threadCount in entries[n].threadCounts
    requires if entries[n].args == [] then arguments == [] else arguments in entries[n].args
    ensures exists i :: i in Expanded(presets, entries).list
                        && i.name == NameOf(entries[n].name, entries[n].labels, arguments, threadCount)
  {
    EveryCombinationIsAsked(presets, entries, n, arguments, threadCount);
    ExpandedKeepsFirst(presets, entries);
    var i :| i in Asked(presets, entries, |entries|) && IsInstance(presets, entries, n, arguments, threadCount, i);
    assert Named(Asked(presets, entries, |entries|), i.name);
    assert Named(Expanded(presets, entries).list, i.name);
  }

  /** And nothing else is listed: each instance is some family's, over one of its lists and
      one of its counts. */
  lemma EveryListedIsAsked(presets: Presets, entries: seq<Entry>, i: Instance)
    returns (n: nat, arguments: seq<int>, threadCount: int)
    requires Expanded(presets, entries).Listed? && i in Expanded(presets, entries).list
    ensures n < |entries| && threadCount in entries[n].threadCounts
    ensures if entries[n].args == [] then arguments == [] else arguments in entries[n].args
    ensures IsInstance(presets, entries, n, arguments, threadCount, i)
  {
    ExpandedKeepsFirst(presets, entries);
    n, arguments, threadCount := AskedFrom(presets, entries, |entries|, i);
  }

  lemma {:induction false} AskedFrom(presets: Presets, entries: seq<Entry>, m: nat, i: Instance)
    returns (n: nat, arguments: seq<int>, threadCount: int)
    requires m <= |entries| && i in Asked(presets, entries, m)
    ensures n < |entries| && threadCount in entries[n].threadCounts
    ensures if entries[n].args == [] then arguments == [] else arguments in entries[n].args
    ensures IsInstance(presets, entries, n, arguments, threadCount, i)
  {
    if i in Asked(presets, entries, m - 1) {
      n, arguments, threadCount := AskedFrom(presets, entries, m - 1, i);
    } else {
      n := m - 1;
      arguments, threadCount := CrossedFrom(entries[n], n, PresetOf(presets, entries[n]), |Lists(entries[n])|, i);
    }
  }

  lemma {:induction false} CrossedFrom(e: Entry, family: nat, preset: nat, n: nat, i: Instance)
    returns (arguments: seq<int>, threadCount: int)
    requires n <= |Lists(e)| && i in Crossed(e, family, preset, n)
    ensures arguments in Lists(e) && threadCount in e.threadCounts
    ensures i == MakeInstance(e, family, preset, arguments, threadCount)
  {
    if i in Crossed(e, family, preset, n - 1) {
      arguments, threadCount := CrossedFrom(e, family, preset, n - 1, i);
    } else {
      var part := Counts(e, family, preset, Lists(e)[n - 1]);
      var k :| 0 <= k < |part| && part[k] == i;
      arguments, threadCount := Lists(e)[n - 1], e.threadCounts[k];
    }
  }

  // ----- what stops an expansion -----

  /** The family names a preset that parses to nothing. */
  predicate Misplaced(presets: Presets, e: Entry) {
    e.placement.Some? && presets.parse(e.placement.value).None?
  }

  /** An expansion stops at the first family that names an unknown preset, and only there. */
  lemma StopsAtFirstUnknown(presets: Presets, entries: seq<Entry>)
    ensures Expanded(presets, entries).Listed? <==> forall n | 0 <= n < |entries| :: !Misplaced(presets, entries[n])
    ensures var out := Expanded(presets, entries);
            out.UnknownPreset? ==> out.family < |entries| && Misplaced(presets, entries[out.family])
                                   && forall n | 0 <= n < out.family :: !Misplaced(presets, entries[n])
  {
    FirstUnknownIs(presets, entries, 0);
  }

  lemma {:induction false} FirstUnknownIs(presets: Presets, entries: seq<Entry>, from: nat)
    requires from <= |entries|
    ensures var first := FirstUnknown(presets, entries, from);
            && (first.None? ==> forall n | from <= n < |entries| :: !Misplaced(presets, entries[n]))
            && (first.Some? ==> from <= first.value < |entries| && Misplaced(presets, entries[first.value])
                                && forall n | from <= n < first.value :: !Misplaced(presets, entries[n]))
    decreases |entries| - from
  {
    if from < |entries| { FirstUnknownIs(presets, entries, from + 1); }
  }
}
