/** What one registration call does, in terms of the tree and the seeds it is given: when
    it is refused and over which seed, and the whole tree an accepted one leaves. */
module RegistrationOutcome {
  import opened Common
  import Spine
  import opened Layout
  import opened Registration

  // ----- what stands in a seed's way -----

  /** One of the first n seeds names the path. */
  predicate PathBefore(seeds: seq<ObjectSeed>, n: nat, path: string)
    requires n <= |seeds|
  {
    exists j | 0 <= j < n :: seeds[j].path == path
  }

  /** One of the first n seeds, not the machine root, carries the alias. */
  predicate AliasBefore(seeds: seq<ObjectSeed>, n: nat, alias: string)
    requires n <= |seeds|
  {
    exists j | 0 <= j < n :: seeds[j].path != "machine" && seeds[j].alias == alias
  }

  predicate NameBefore(entries: seq<CatalogSeed>, k: nat, name: string)
    requires k <= |entries|
  {
    exists m | 0 <= m < k :: entries[m].name == name
  }

  /** The machine root holds the name, or one of the first n seeds adds it there. */
  predicate RootNameBefore(tree: Tree, seeds: seq<ObjectSeed>, n: nat, name: string)
    requires n <= |seeds| && MACHINE in tree.objects
  {
    HasName(tree.objects[MACHINE].leaves, name)
    || exists j | 0 <= j < n :: seeds[j].path == "machine" && NameBefore(seeds[j].entries, |seeds[j].entries|, name)
  }

  predicate Listed(unit: string) {
    unit in ["seconds", "nanoseconds", "bytes", "ops", "none"]
  }

  predicate PathTaken(tree: Tree, seeds: seq<ObjectSeed>, i: nat)
    requires i < |seeds|
  {
    seeds[i].path != "machine" && (seeds[i].path in tree.objects || PathBefore(seeds, i, seeds[i].path))
  }

  /** The leaf's name is taken in its object; the machine root is one object over all calls. */
  predicate NameTaken(tree: Tree, seeds: seq<ObjectSeed>, i: nat, k: nat)
    requires i < |seeds| && k < |seeds[i].entries| && MACHINE in tree.objects
  {
    var name := seeds[i].entries[k].name;
    NameBefore(seeds[i].entries, k, name) || (seeds[i].path == "machine" && RootNameBefore(tree, seeds, i, name))
  }

  predicate AliasTaken(tree: Tree, seeds: seq<ObjectSeed>, i: nat)
    requires i < |seeds|
  {
    seeds[i].path != "machine" && seeds[i].alias != "" &&
    (seeds[i].alias in tree.aliases || AliasBefore(seeds, i, seeds[i].alias))
  }

  predicate EntriesFine(tree: Tree, seeds: seq<ObjectSeed>, i: nat, k: nat)
    requires i < |seeds| && k <= |seeds[i].entries| && MACHINE in tree.objects
  {
    forall m | 0 <= m < k :: Listed(seeds[i].entries[m].unit) && !NameTaken(tree, seeds, i, m)
  }

  /** Nothing stands in the way of seed i. */
  predicate SeedFine(tree: Tree, seeds: seq<ObjectSeed>, i: nat)
    requires i < |seeds| && MACHINE in tree.objects
  {
    !PathTaken(tree, seeds, i) && EntriesFine(tree, seeds, i, |seeds[i].entries|) && !AliasTaken(tree, seeds, i)
  }

  /** The error names the first thing in the way of seed i: its path, then its entries in
      order, the unit before the name, then its alias. */
  predicate FaultIs(tree: Tree, seeds: seq<ObjectSeed>, i: nat, k: nat, error: Error)
    requires MACHINE in tree.objects
  {
    i < |seeds| &&
    match error
    case AlreadyOpen => false
    case DuplicatePath(path) => path == seeds[i].path && PathTaken(tree, seeds, i)
    case UnknownUnit(token) =>
      && !PathTaken(tree, seeds, i) && k < |seeds[i].entries| && EntriesFine(tree, seeds, i, k)
      && token == seeds[i].entries[k].unit && !Listed(token)
    case DuplicateName(path, name) =>
      && !PathTaken(tree, seeds, i) && k < |seeds[i].entries| && EntriesFine(tree, seeds, i, k)
      && Listed(seeds[i].entries[k].unit) && NameTaken(tree, seeds, i, k)
      && path == seeds[i].path && name == seeds[i].entries[k].name
    case DuplicateAlias(alias) =>
      && !PathTaken(tree, seeds, i) && EntriesFine(tree, seeds, i, |seeds[i].entries|)
      && AliasTaken(tree, seeds, i) && alias == seeds[i].alias
  }

  // ----- the entries of one seed -----

  lemma {:induction false} BuildOutcome(entries: seq<CatalogSeed>, path: string, root: seq<CatalogLeaf>, provider: nat,
                                        k: nat, built: seq<CatalogLeaf>) returns (at: nat)
    requires k <= |entries| && forall name :: HasName(built, name) <==> NameBefore(entries, k, name)
    requires forall m | 0 <= m < k :: Listed(entries[m].unit) && !Taken(entries, path, root, m)
    ensures var r := BuildLeaves(entries[k..], path, root, provider, built);
            && (r.Ok? <==> at == |entries|) && at <= |entries|
            && (forall m | 0 <= m < at :: Listed(entries[m].unit) && !Taken(entries, path, root, m))
            && (r.Err? ==>
                  at < |entries| &&
                  if !Listed(entries[at].unit) then r.error == UnknownUnit(entries[at].unit)
                  else Taken(entries, path, root, at) && r.error == DuplicateName(path, entries[at].name))
    decreases |entries| - k
  {
    at := k;
    if k < |entries| {
      var entry := entries[k];
      assert entries[k..][0] == entry && entries[k..][1..] == entries[k + 1..];
      if Listed(entry.unit) && !Taken(entries, path, root, k) {
        var leaf := MakeLeaf(path, entry, provider);
        HasNameSnoc(built, leaf);
        forall name ensures HasName(built + [leaf], name) <==> NameBefore(entries, k + 1, name) {
          NameBeforeSnoc(entries, k, name);
        }
        at := BuildOutcome(entries, path, root, provider, k + 1, built + [leaf]);
      }
    }
  }

  /** The entry's name is taken by an earlier entry, or in the root. */
  predicate Taken(entries: seq<CatalogSeed>, path: string, root: seq<CatalogLeaf>, m: nat)
    requires m < |entries|
  {
    NameBefore(entries, m, entries[m].name) || (path == MACHINE && HasName(root, entries[m].name))
  }

  lemma HasNameSnoc(leaves: seq<CatalogLeaf>, leaf: CatalogLeaf)
    ensures forall name :: HasName(leaves + [leaf], name) <==> HasName(leaves, name) || leaf.record.core.name == name
  {
    forall name | HasName(leaves, name) || leaf.record.core.name == name ensures HasName(leaves + [leaf], name) {
      if HasName(leaves, name) {
        var l :| l in leaves && l.record.core.name == name;
        assert l in leaves + [leaf];
      } else {
        assert leaf in leaves + [leaf];
      }
    }
  }

  lemma NameBeforeSnoc(entries: seq<CatalogSeed>, k: nat, name: string)
    requires k < |entries|
    ensures NameBefore(entries, k + 1, name) <==> NameBefore(entries, k, name) || entries[k].name == name
  {
  }

  // ----- the seeds of one call -----

  /** Seed j states a limit for the path, and none of the seeds from there to n does again. */
  predicate LastLimit(seeds: seq<ObjectSeed>, n: nat, path: string, j: nat)
    requires n <= |seeds|
  {
    && j < n && seeds[j].path == path && seeds[j].programmable.Some?
    && forall m | j < m < n :: seeds[m].path == path ==> seeds[m].programmable.None?
  }

  predicate LimitBefore(seeds: seq<ObjectSeed>, n: nat, path: string)
    requires n <= |seeds|
  {
    exists j | 0 <= j < n :: seeds[j].path == path && seeds[j].programmable.Some?
  }

  /** What the limits of the first n seeds are. */
  ghost predicate LimitsAre(seeds: seq<ObjectSeed>, n: nat, limits: map<string, nat>)
    requires n <= |seeds|
  {
    && (forall path :: path in limits <==> LimitBefore(seeds, n, path))
    && (forall path, j: nat | LastLimit(seeds, n, path, j) ::
          path in limits && limits[path] == seeds[j].programmable.value)
  }

  /** What the aliases of the first n seeds are. */
  ghost predicate AliasesAre(seeds: seq<ObjectSeed>, n: nat, aliases: map<string, string>)
    requires n <= |seeds|
  {
    && (forall alias :: alias in aliases <==> alias != "" && AliasBefore(seeds, n, alias))
    && (forall j | 0 <= j < n && seeds[j].path != "machine" && seeds[j].alias != "" ::
          seeds[j].alias in aliases && aliases[seeds[j].alias] == seeds[j].path)
  }

  /** The batch holds what the first n seeds ask for. */
  ghost predicate Staged(tree: Tree, seeds: seq<ObjectSeed>, n: nat, batch: Batch)
    requires n <= |seeds| && MACHINE in tree.objects
  {
    && (forall path :: path in batch.nodes <==> path != "machine" && PathBefore(seeds, n, path))
    && AliasesAre(seeds, n, batch.aliases)
    && (forall name :: HasName(batch.root, name) <==> RootNameBefore(tree, seeds, n, name))
    && LimitsAre(seeds, n, batch.limits)
  }

  lemma SeedOutcome(tree: Tree, seeds: seq<ObjectSeed>, i: nat, batch: Batch) returns (k: nat)
    requires MACHINE in tree.objects && i < |seeds| && Staged(tree, seeds, i, batch)
    ensures StageSeed(tree, batch, seeds[i]).Ok? <==> SeedFine(tree, seeds, i)
    ensures StageSeed(tree, batch, seeds[i]).Err? ==> FaultIs(tree, seeds, i, k, StageSeed(tree, batch, seeds[i]).error)
  {
    var seed := seeds[i];
    assert seed.entries[0..] == seed.entries;
    k := BuildOutcome(seed.entries, seed.path, batch.root, tree.providers, 0, []);
    forall m | 0 <= m < |seed.entries|
      ensures Taken(seed.entries, seed.path, batch.root, m) <==> NameTaken(tree, seeds, i, m)
    {
      assert HasName(batch.root, seed.entries[m].name) <==> RootNameBefore(tree, seeds, i, seed.entries[m].name);
    }
  }

  lemma PathsGrow(seeds: seq<ObjectSeed>, i: nat, path: string)
    requires i < |seeds|
    ensures PathBefore(seeds, i + 1, path) <==> PathBefore(seeds, i, path) || seeds[i].path == path
    ensures LimitBefore(seeds, i + 1, path)
       <==> LimitBefore(seeds, i, path) || (seeds[i].path == path && seeds[i].programmable.Some?)
  {
  }

  lemma AliasesGrow(seeds: seq<ObjectSeed>, i: nat, alias: string)
    requires i < |seeds|
    ensures AliasBefore(seeds, i + 1, alias)
       <==> AliasBefore(seeds, i, alias) || (seeds[i].path != "machine" && seeds[i].alias == alias)
  {
  }

  lemma RootGrows(tree: Tree, seeds: seq<ObjectSeed>, i: nat, name: string)
    requires i < |seeds| && MACHINE in tree.objects
    ensures RootNameBefore(tree, seeds, i + 1, name)
       <==> RootNameBefore(tree, seeds, i, name)
            || (seeds[i].path == "machine" && NameBefore(seeds[i].entries, |seeds[i].entries|, name))
  {
  }

  lemma MadeNames(leaves: seq<CatalogLeaf>, entries: seq<CatalogSeed>, path: string, provider: nat, name: string)
    ensures HasName(leaves + Made(entries, path, provider), name)
       <==> HasName(leaves, name) || NameBefore(entries, |entries|, name)
  {
    var made := Made(entries, path, provider);
    if HasName(leaves, name) {
      var l :| l in leaves && l.record.core.name == name;
      assert l in leaves + made;
    }
    if NameBefore(entries, |entries|, name) {
      var m :| 0 <= m < |entries| && entries[m].name == name;
      assert made[m] in leaves + made;
    }
  }

  lemma NextLimits(seeds: seq<ObjectSeed>, i: nat, limits: map<string, nat>)
    requires i < |seeds| && LimitsAre(seeds, i, limits)
    ensures LimitsAre(seeds, i + 1, if seeds[i].programmable.Some? then limits[seeds[i].path := seeds[i].programmable.value]
                                    else limits)
  {
    var seed := seeds[i];
    var next := if seed.programmable.Some? then limits[seed.path := seed.programmable.value] else limits;
    forall path ensures path in next <==> LimitBefore(seeds, i + 1, path) { PathsGrow(seeds, i, path); }
    forall path, j: nat | LastLimit(seeds, i + 1, path, j)
      ensures path in next && next[path] == seeds[j].programmable.value
    {
      if j < i { assert LastLimit(seeds, i, path, j); }
    }
  }

  lemma NextAliases(tree: Tree, seeds: seq<ObjectSeed>, i: nat, aliases: map<string, string>)
    requires i < |seeds| && AliasesAre(seeds, i, aliases) && seeds[i].path != "machine" && !AliasTaken(tree, seeds, i)
    ensures AliasesAre(seeds, i + 1, if seeds[i].alias == "" then aliases else aliases[seeds[i].alias := seeds[i].path])
  {
    var seed := seeds[i];
    var next := if seed.alias == "" then aliases else aliases[seed.alias := seed.path];
    forall alias ensures alias in next <==> alias != "" && AliasBefore(seeds, i + 1, alias) { AliasesGrow(seeds, i, alias); }
    forall j | 0 <= j < i + 1 && seeds[j].path != "machine" && seeds[j].alias != ""
      ensures seeds[j].alias in next && next[seeds[j].alias] == seeds[j].path
    {
      if j < i { assert AliasBefore(seeds, i, seeds[j].alias); }
    }
  }

  lemma NextRoot(tree: Tree, seeds: seq<ObjectSeed>, i: nat, root: seq<CatalogLeaf>, next: seq<CatalogLeaf>)
    requires i < |seeds| && MACHINE in tree.objects && next == root + RootOf(seeds[i], tree.providers)
    requires forall name :: HasName(root, name) <==> RootNameBefore(tree, seeds, i, name)
    ensures forall name :: HasName(next, name) <==> RootNameBefore(tree, seeds, i + 1, name)
  {
    assert root + [] == root;
    forall name ensures HasName(next, name) <==> RootNameBefore(tree, seeds, i + 1, name) {
      RootGrows(tree, seeds, i, name);
      MadeNames(root, seeds[i].entries, MACHINE, tree.providers, name);
    }
  }

  lemma NextStaged(tree: Tree, seeds: seq<ObjectSeed>, i: nat, batch: Batch)
    requires MACHINE in tree.objects && i < |seeds| && Staged(tree, seeds, i, batch)
    requires StageSeed(tree, batch, seeds[i]).Ok?
    ensures Staged(tree, seeds, i + 1, StageSeed(tree, batch, seeds[i]).value)
  {
    var seed, next := seeds[i], StageSeed(tree, batch, seeds[i]).value;
    var _ := SeedOutcome(tree, seeds, i, batch);
    StageSeedHas(tree, batch, seed);
    NextRoot(tree, seeds, i, batch.root, next.root);
    NextLimits(seeds, i, batch.limits);
    forall path ensures path in next.nodes <==> path != "machine" && PathBefore(seeds, i + 1, path) {
      PathsGrow(seeds, i, path);
    }
    if seed.path != "machine" {
      NextAliases(tree, seeds, i, batch.aliases);
    } else {
      SameAliases(seeds, i, batch.aliases);
    }
  }

  lemma SameAliases(seeds: seq<ObjectSeed>, i: nat, aliases: map<string, string>)
    requires i < |seeds| && AliasesAre(seeds, i, aliases) && seeds[i].path == "machine"
    ensures AliasesAre(seeds, i + 1, aliases)
  {
    forall alias ensures alias in aliases <==> alias != "" && AliasBefore(seeds, i + 1, alias) { AliasesGrow(seeds, i, alias); }
  }

  lemma {:induction false} CallOutcome(tree: Tree, seeds: seq<ObjectSeed>, n: nat, batch: Batch) returns (i: nat, k: nat)
    requires MACHINE in tree.objects && n <= |seeds| && Staged(tree, seeds, n, batch)
    requires forall j: nat | j < n :: SeedFine(tree, seeds, j)
    ensures i <= |seeds| && forall j: nat | j < i :: SeedFine(tree, seeds, j)
    ensures var r := StageAll(tree, batch, seeds[n..]);
            && (r.Ok? <==> i == |seeds|) && (r.Ok? ==> Staged(tree, seeds, |seeds|, r.value))
            && (r.Err? ==> FaultIs(tree, seeds, i, k, r.error))
    decreases |seeds| - n
  {
    i, k := n, 0;
    if n < |seeds| {
      assert seeds[n..][0] == seeds[n] && seeds[n..][1..] == seeds[n + 1..];
      k := SeedOutcome(tree, seeds, n, batch);
      if StageSeed(tree, batch, seeds[n]).Ok? {
        NextStaged(tree, seeds, n, batch);
        i, k := CallOutcome(tree, seeds, n + 1, StageSeed(tree, batch, seeds[n]).value);
      }
    }
  }

  lemma NothingStaged(tree: Tree, seeds: seq<ObjectSeed>)
    requires MACHINE in tree.objects
    ensures Staged(tree, seeds, 0, NoBatch(tree))
  {
  }

  lemma FaultIsNotFine(tree: Tree, seeds: seq<ObjectSeed>, i: nat, k: nat, error: Error)
    requires MACHINE in tree.objects && FaultIs(tree, seeds, i, k, error)
    ensures !SeedFine(tree, seeds, i)
  {
  }

  /** A call is refused exactly when something stands in the way of one of its seeds, and
      its error names the first such thing: of the first seed there is, its path, then its
      entries in order, the unit before the name, then its alias. */
  lemma RefusedIff(tree: Tree, seeds: seq<ObjectSeed>) returns (i: nat, k: nat)
    requires MACHINE in tree.objects
    ensures Registered(tree, seeds).1.None? <==> forall j: nat | j < |seeds| :: SeedFine(tree, seeds, j)
    ensures Registered(tree, seeds).1.Some? ==>
              && (forall j: nat | j < i && j < |seeds| :: SeedFine(tree, seeds, j))
              && FaultIs(tree, seeds, i, k, Registered(tree, seeds).1.value)
  {
    NothingStaged(tree, seeds);
    assert seeds[0..] == seeds;
    i, k := CallOutcome(tree, seeds, 0, NoBatch(tree));
    if i < |seeds| { FaultIsNotFine(tree, seeds, i, k, Registered(tree, seeds).1.value); }
  }

  /** A leaf as its entry asks: the address under the object's path, the entry's name, unit
      and availability, and the provider the call registers. */
  predicate LeafAsAsked(leaf: CatalogLeaf, entry: CatalogSeed, path: string, provider: nat) {
    leaf == CatalogLeaf(LeafRecord(Spine.LeafCore(path + "/" + entry.name, entry.name), entry.avail, provider), entry.unit)
  }

  /** The whole tree an accepted call leaves: the objects, aliases and limits there were and
      those of its seeds, a later limit of the machine root over an earlier one, every new
      object with its leaves as asked, in order, and one provider more. */
  lemma AcceptedTreeIs(tree: Tree, seeds: seq<ObjectSeed>)
    requires TreeOk(tree) && Registered(tree, seeds).1.None?
    ensures var after := Registered(tree, seeds).0;
            && (forall path :: path in after.objects <==> path in tree.objects || PathBefore(seeds, |seeds|, path))
            && (forall alias :: alias in after.aliases <==>
                  alias in tree.aliases || (alias != "" && AliasBefore(seeds, |seeds|, alias)))
            && (forall path :: path in after.limits <==> path in tree.limits || LimitBefore(seeds, |seeds|, path))
            && (forall path | path in tree.limits && !LimitBefore(seeds, |seeds|, path) ::
                  after.limits[path] == tree.limits[path])
            && (forall path, j: nat | LastLimit(seeds, |seeds|, path, j) ::
                  after.limits[path] == seeds[j].programmable.value)
            && after.providers == tree.providers + 1
  {
    NothingStaged(tree, seeds);
    assert seeds[0..] == seeds;
    var _, _ := CallOutcome(tree, seeds, 0, NoBatch(tree));
  }

  /** Each seed of an accepted call is there as it was asked for. */
  lemma AcceptedSeedIs(tree: Tree, seeds: seq<ObjectSeed>, j: nat)
    requires TreeOk(tree) && Registered(tree, seeds).1.None? && j < |seeds| && seeds[j].path != "machine"
    ensures var after, seed := Registered(tree, seeds).0, seeds[j];
            && seed.path in after.objects && after.objects[seed.path].alias == seed.alias
            && |after.objects[seed.path].leaves| == |seed.entries|
            && (forall k | 0 <= k < |seed.entries| ::
                  LeafAsAsked(after.objects[seed.path].leaves[k], seed.entries[k], seed.path, tree.providers))
            && (seed.alias != "" ==> seed.alias in after.aliases && after.aliases[seed.alias] == seed.path)
  {
    AcceptedSeedsAreStored(tree, seeds);
    assert StoredAs(Registered(tree, seeds).0.objects, seeds[j], tree.providers);
    NothingStaged(tree, seeds);
    assert seeds[0..] == seeds;
    var _, _ := CallOutcome(tree, seeds, 0, NoBatch(tree));
  }

  // ----- resolution through an alias -----

  /** A leaf is found under its object's alias as well: the alias, the separator and the
      leaf's name resolve to the object's own leaf, whose address is under the path. */
  lemma AliasResolves(tree: Tree, path: string, k: nat)
    requires TreeOk(tree) && path in tree.objects && k < |tree.objects[path].leaves|
    requires tree.objects[path].alias != "" && Slashless(tree.objects[path].leaves[k].record.core.name)
    ensures var leaf := tree.objects[path].leaves[k].record;
            && Lookup(CatalogOf(tree), tree.objects[path].alias + "/" + leaf.core.name) == Some(leaf)
            && leaf.core.address == path + "/" + leaf.core.name
  {
    var leaves := tree.objects[path].leaves;
    assert ObjectOk(tree, path) && LeafOk(path, leaves, tree.providers, k);
    SplitsAtName(tree.objects[path].alias, leaves[k].record.core.name);
    FirstNamedFinds(leaves, k);
  }
}
