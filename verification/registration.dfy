/** Provider registration: seeds staged against the tree, then merged whole or not at all. */
module Registration {
  import opened Common
  import opened Spine
  import opened Layout

  // ----- data -----

  datatype CatalogSeed = CatalogSeed(name: string, unit: string, avail: Availability)

  datatype ObjectSeed = ObjectSeed(path: string, alias: string, entries: seq<CatalogSeed>, programmable: Option<nat>)

  datatype CatalogLeaf = CatalogLeaf(record: LeafRecord, unit: string)

  datatype Node = Node(alias: string, leaves: seq<CatalogLeaf>)

  /** The tree behind the system handle; a provider is its index. */
  datatype Tree = Tree(objects: map<string, Node>, aliases: map<string, string>, limits: map<string, nat>, providers: nat)

  datatype Error =
    | AlreadyOpen
    | DuplicatePath(path: string)
    | UnknownUnit(token: string)
    | DuplicateName(path: string, name: string)
    | DuplicateAlias(alias: string)

  const MACHINE: string := "machine"

  /** The closed unit mapping. */
  predicate KnownUnit(token: string) {
    token == "seconds" || token == "nanoseconds" || token == "bytes" || token == "ops" || token == "none"
  }

  function EmptyTree(): Tree {
    Tree(map[MACHINE := Node("", [])], map[], map[], 0)
  }

  // ----- staging -----

  predicate HasName(leaves: seq<CatalogLeaf>, name: string) {
    exists l | l in leaves :: l.record.core.name == name
  }

  function MakeLeaf(path: string, entry: CatalogSeed, provider: nat): CatalogLeaf {
    CatalogLeaf(LeafRecord(LeafCore(path + "/" + entry.name, entry.name), entry.avail, provider), entry.unit)
  }

  /** `buildLeaves`, from the leaves built so far. */
  function BuildLeaves(entries: seq<CatalogSeed>, path: string, root: seq<CatalogLeaf>, provider: nat,
                       built: seq<CatalogLeaf>)
    : Result<seq<CatalogLeaf>, Error>
  {
    if entries == [] then Ok(built)
    else
      var entry := entries[0];
      if !KnownUnit(entry.unit) then Err(UnknownUnit(entry.unit))
      else if HasName(built, entry.name) || (path == MACHINE && HasName(root, entry.name)) then
        Err(DuplicateName(path, entry.name))
      else BuildLeaves(entries[1..], path, root, provider, built + [MakeLeaf(path, entry, provider)])
  }

  /** What a call has staged: new objects, the machine root's leaves, aliases and limits. */
  datatype Batch = Batch(nodes: map<string, Node>, root: seq<CatalogLeaf>, aliases: map<string, string>, limits: map<string, nat>)

  function NoBatch(tree: Tree): Batch
    requires MACHINE in tree.objects
  {
    Batch(map[], tree.objects[MACHINE].leaves, map[], map[])
  }

  function StageSeed(tree: Tree, batch: Batch, seed: ObjectSeed): Result<Batch, Error> {
    if seed.path != MACHINE && (seed.path in tree.objects || seed.path in batch.nodes) then Err(DuplicatePath(seed.path))
    else
      match BuildLeaves(seed.entries, seed.path, batch.root, tree.providers, [])
      case Err(e) => Err(e)
      case Ok(leaves) =>
        var limited := if seed.programmable.Some? then batch.(limits := batch.limits[seed.path := seed.programmable.value])
                       else batch;
        if seed.path == MACHINE then Ok(limited.(root := limited.root + leaves))
        else if seed.alias != "" && (seed.alias in tree.aliases || seed.alias in batch.aliases) then
          Err(DuplicateAlias(seed.alias))
        else
          Ok(limited.(nodes := limited.nodes[seed.path := Node(seed.alias, leaves)],
                      aliases := if seed.alias == "" then limited.aliases else limited.aliases[seed.alias := seed.path]))
  }

  function StageAll(tree: Tree, batch: Batch, seeds: seq<ObjectSeed>): Result<Batch, Error>
    decreases |seeds|
  {
    if seeds == [] then Ok(batch)
    else
      match StageSeed(tree, batch, seeds[0])
      case Err(e) => Err(e)
      case Ok(next) => StageAll(tree, next, seeds[1..])
  }

  function Commit(tree: Tree, batch: Batch): Tree
    requires MACHINE in tree.objects
  {
    Tree(tree.objects[MACHINE := tree.objects[MACHINE].(leaves := batch.root)] + batch.nodes,
         tree.aliases + batch.aliases, tree.limits + batch.limits, tree.providers + 1)
  }

  /** The tree after a call, with its error if it was refused. */
  function Registered(tree: Tree, seeds: seq<ObjectSeed>): (Tree, Option<Error>)
    requires MACHINE in tree.objects
  {
    match StageAll(tree, NoBatch(tree), seeds)
    case Err(e) => (tree, Some(e))
    case Ok(batch) => (Commit(tree, batch), None)
  }

  // ----- what every tree keeps -----

  predicate LeafOk(path: string, leaves: seq<CatalogLeaf>, providers: nat, k: nat) {
    && k < |leaves| && KnownUnit(leaves[k].unit) && leaves[k].record.provider < providers
    && leaves[k].record.core.address == path + "/" + leaves[k].record.core.name
  }

  predicate NamesDiffer(leaves: seq<CatalogLeaf>, i: nat, j: nat) {
    i < |leaves| && j < |leaves| && leaves[i].record.core.name != leaves[j].record.core.name
  }

  ghost predicate LeavesOk(path: string, leaves: seq<CatalogLeaf>, providers: nat) {
    && (forall k: nat | k < |leaves| :: LeafOk(path, leaves, providers, k))
    && (forall i: nat, j: nat | i < j < |leaves| :: NamesDiffer(leaves, i, j))
  }

  ghost predicate ObjectOk(tree: Tree, path: string) {
    && path in tree.objects && LeavesOk(path, tree.objects[path].leaves, tree.providers)
    && (tree.objects[path].alias != "" ==>
          tree.objects[path].alias in tree.aliases && tree.aliases[tree.objects[path].alias] == path)
  }

  ghost predicate AliasOk(tree: Tree, alias: string) {
    && alias in tree.aliases && alias != "" && tree.aliases[alias] in tree.objects
    && tree.objects[tree.aliases[alias]].alias == alias
  }

  /** Every leaf of a stored object carries the object's own address, a known unit and a
      registered provider, names within an object are unique, and aliases and the objects
      that carry them are one to one. */
  ghost predicate TreeOk(tree: Tree) {
    && MACHINE in tree.objects && tree.objects[MACHINE].alias == ""
    && (forall path | path in tree.objects :: ObjectOk(tree, path))
    && (forall alias | alias in tree.aliases :: AliasOk(tree, alias))
  }

  lemma MoreProviders(path: string, leaves: seq<CatalogLeaf>, few: nat, many: nat)
    requires LeavesOk(path, leaves, few) && few <= many
    ensures LeavesOk(path, leaves, many)
  {
    forall k: nat | k < |leaves| ensures LeafOk(path, leaves, many, k) { assert LeafOk(path, leaves, few, k); }
  }

  lemma OneMoreLeaf(path: string, leaves: seq<CatalogLeaf>, providers: nat, leaf: CatalogLeaf)
    requires LeavesOk(path, leaves, providers) && !HasName(leaves, leaf.record.core.name)
    requires KnownUnit(leaf.unit) && leaf.record.provider < providers
    requires leaf.record.core.address == path + "/" + leaf.record.core.name
    ensures LeavesOk(path, leaves + [leaf], providers)
  {
    var more := leaves + [leaf];
    forall k: nat | k < |more| ensures LeafOk(path, more, providers, k) {
      if k < |leaves| { assert LeafOk(path, leaves, providers, k); }
    }
    forall i: nat, j: nat | i < j < |more| ensures NamesDiffer(more, i, j) {
      if j < |leaves| { assert NamesDiffer(leaves, i, j); } else { assert leaves[i] in leaves; }
    }
  }

  /** Built leaves are good behind nothing, and behind the root's where they join it. */
  lemma {:induction false} BuildLeavesOk(entries: seq<CatalogSeed>, path: string, root: seq<CatalogLeaf>,
                                         provider: nat, built: seq<CatalogLeaf>)
    requires LeavesOk(path, built, provider + 1) && BuildLeaves(entries, path, root, provider, built).Ok?
    requires path == MACHINE ==> LeavesOk(MACHINE, root + built, provider + 1)
    ensures LeavesOk(path, BuildLeaves(entries, path, root, provider, built).value, provider + 1)
    ensures path == MACHINE ==> LeavesOk(MACHINE, root + BuildLeaves(entries, path, root, provider, built).value, provider + 1)
    decreases |entries|
  {
    if entries != [] {
      var leaf := MakeLeaf(path, entries[0], provider);
      OneMoreLeaf(path, built, provider + 1, leaf);
      if path == MACHINE {
        OneMoreLeaf(MACHINE, root + built, provider + 1, leaf);
        assert root + (built + [leaf]) == root + built + [leaf];
      }
      BuildLeavesOk(entries[1..], path, root, provider, built + [leaf]);
    }
  }

  // ----- a batch keeps it -----

  ghost predicate StagedOk(tree: Tree, batch: Batch, path: string) {
    && path in batch.nodes && path != MACHINE && path !in tree.objects
    && LeavesOk(path, batch.nodes[path].leaves, tree.providers + 1)
    && (batch.nodes[path].alias != "" ==>
          batch.nodes[path].alias in batch.aliases && batch.aliases[batch.nodes[path].alias] == path)
  }

  ghost predicate StagedAliasOk(tree: Tree, batch: Batch, alias: string) {
    && alias in batch.aliases && alias != "" && alias !in tree.aliases
    && batch.aliases[alias] in batch.nodes && batch.nodes[batch.aliases[alias]].alias == alias
  }

  ghost predicate BatchOk(tree: Tree, batch: Batch) {
    && MACHINE in tree.objects && tree.objects[MACHINE].leaves <= batch.root
    && LeavesOk(MACHINE, batch.root, tree.providers + 1)
    && (forall path | path in batch.nodes :: StagedOk(tree, batch, path))
    && (forall alias | alias in batch.aliases :: StagedAliasOk(tree, batch, alias))
  }

  lemma NoBatchOk(tree: Tree)
    requires TreeOk(tree)
    ensures BatchOk(tree, NoBatch(tree))
  {
    assert ObjectOk(tree, MACHINE);
    MoreProviders(MACHINE, tree.objects[MACHINE].leaves, tree.providers, tree.providers + 1);
  }

  lemma StageSeedOk(tree: Tree, batch: Batch, seed: ObjectSeed)
    requires TreeOk(tree) && BatchOk(tree, batch) && StageSeed(tree, batch, seed).Ok?
    ensures BatchOk(tree, StageSeed(tree, batch, seed).value)
  {
    var next := StageSeed(tree, batch, seed).value;
    assert batch.root + [] == batch.root;
    BuildLeavesOk(seed.entries, seed.path, batch.root, tree.providers, []);
    forall path | path in next.nodes ensures StagedOk(tree, next, path) {
      if path in batch.nodes { assert StagedOk(tree, batch, path); }
    }
    forall alias | alias in next.aliases ensures StagedAliasOk(tree, next, alias) {
      if alias in batch.aliases { assert StagedAliasOk(tree, batch, alias); }
    }
  }

  lemma {:induction false} StageAllOk(tree: Tree, batch: Batch, seeds: seq<ObjectSeed>)
    requires TreeOk(tree) && BatchOk(tree, batch) && StageAll(tree, batch, seeds).Ok?
    ensures BatchOk(tree, StageAll(tree, batch, seeds).value)
    decreases |seeds|
  {
    if seeds != [] {
      StageSeedOk(tree, batch, seeds[0]);
      StageAllOk(tree, StageSeed(tree, batch, seeds[0]).value, seeds[1..]);
    }
  }

  lemma CommitOk(tree: Tree, batch: Batch)
    requires TreeOk(tree) && BatchOk(tree, batch)
    ensures TreeOk(Commit(tree, batch))
  {
    var after := Commit(tree, batch);
    forall path | path in after.objects ensures ObjectOk(after, path) {
      if path in batch.nodes {
        assert StagedOk(tree, batch, path);
      } else {
        assert ObjectOk(tree, path);
        MoreProviders(path, tree.objects[path].leaves, tree.providers, tree.providers + 1);
      }
    }
    forall alias | alias in after.aliases ensures AliasOk(after, alias) {
      if alias in batch.aliases {
        assert StagedAliasOk(tree, batch, alias);
      } else {
        assert AliasOk(tree, alias);
      }
    }
  }

  /** A call keeps the tree good; refused, it changes nothing; accepted, it adds one provider
      and keeps every object, alias and root leaf that was there. */
  lemma RegisterKeeps(tree: Tree, seeds: seq<ObjectSeed>)
    requires TreeOk(tree)
    ensures var (after, error) := Registered(tree, seeds);
            && TreeOk(after) && (error.Some? ==> after == tree)
            && (error.None? ==>
                  && after.providers == tree.providers + 1
                  && (forall path | path in tree.objects && path != MACHINE ::
                        path in after.objects && after.objects[path] == tree.objects[path])
                  && tree.objects[MACHINE].leaves <= after.objects[MACHINE].leaves
                  && (forall alias | alias in tree.aliases ::
                        alias in after.aliases && after.aliases[alias] == tree.aliases[alias]))
  {
    var staged := StageAll(tree, NoBatch(tree), seeds);
    if staged.Ok? {
      var batch := staged.value;
      NoBatchOk(tree);
      StageAllOk(tree, NoBatch(tree), seeds);
      CommitOk(tree, batch);
    }
  }

  /** The leaves a seed asks for, in its order. */
  function Made(entries: seq<CatalogSeed>, path: string, provider: nat): (r: seq<CatalogLeaf>)
    ensures |r| == |entries| && forall k | 0 <= k < |r| :: r[k] == MakeLeaf(path, entries[k], provider)
  {
    seq(|entries|, k requires 0 <= k < |entries| => MakeLeaf(path, entries[k], provider))
  }

  lemma {:induction false} BuildLeavesAre(entries: seq<CatalogSeed>, path: string, root: seq<CatalogLeaf>,
                                          provider: nat, built: seq<CatalogLeaf>)
    requires BuildLeaves(entries, path, root, provider, built).Ok?
    ensures BuildLeaves(entries, path, root, provider, built).value == built + Made(entries, path, provider)
    decreases |entries|
  {
    if entries != [] {
      var leaf := MakeLeaf(path, entries[0], provider);
      BuildLeavesAre(entries[1..], path, root, provider, built + [leaf]);
      assert Made(entries, path, provider) == [leaf] + Made(entries[1..], path, provider);
      assert built + [leaf] + Made(entries[1..], path, provider) == built + ([leaf] + Made(entries[1..], path, provider));
    }
  }

  /** What a seed adds to the machine root. */
  function RootOf(seed: ObjectSeed, provider: nat): seq<CatalogLeaf> {
    if seed.path == MACHINE then Made(seed.entries, MACHINE, provider) else []
  }

  function RootLeaves(seeds: seq<ObjectSeed>, provider: nat): seq<CatalogLeaf> {
    if seeds == [] then [] else RootOf(seeds[0], provider) + RootLeaves(seeds[1..], provider)
  }

  /** An object staged or stored as its seed asks. */
  predicate StoredAs(nodes: map<string, Node>, seed: ObjectSeed, provider: nat) {
    seed.path in nodes && nodes[seed.path] == Node(seed.alias, Made(seed.entries, seed.path, provider))
  }

  lemma StageSeedHas(tree: Tree, batch: Batch, seed: ObjectSeed)
    requires StageSeed(tree, batch, seed).Ok?
    ensures var next := StageSeed(tree, batch, seed).value;
            && next.root == batch.root + RootOf(seed, tree.providers)
            && (forall path | path in batch.nodes :: path in next.nodes && next.nodes[path] == batch.nodes[path])
            && (seed.path != MACHINE ==> StoredAs(next.nodes, seed, tree.providers))
  {
    BuildLeavesAre(seed.entries, seed.path, batch.root, tree.providers, []);
    var made := Made(seed.entries, seed.path, tree.providers);
    assert [] + made == made && made + [] == made;
    assert batch.root + [] == batch.root;
  }

  lemma {:induction false} StageAllHas(tree: Tree, batch: Batch, seeds: seq<ObjectSeed>)
    requires StageAll(tree, batch, seeds).Ok?
    ensures var after := StageAll(tree, batch, seeds).value;
            && (forall path | path in batch.nodes :: path in after.nodes && after.nodes[path] == batch.nodes[path])
            && (forall seed | seed in seeds && seed.path != MACHINE :: StoredAs(after.nodes, seed, tree.providers))
    decreases |seeds|
  {
    if seeds != [] {
      StageSeedHas(tree, batch, seeds[0]);
      StageAllHas(tree, StageSeed(tree, batch, seeds[0]).value, seeds[1..]);
      assert seeds == [seeds[0]] + seeds[1..];
    }
  }

  lemma Regroup(a: seq<CatalogLeaf>, b: seq<CatalogLeaf>, c: seq<CatalogLeaf>)
    ensures a + b + c == a + (b + c)
  {
  }

  lemma {:induction false} StageAllRoot(tree: Tree, batch: Batch, seeds: seq<ObjectSeed>)
    requires StageAll(tree, batch, seeds).Ok?
    ensures StageAll(tree, batch, seeds).value.root == batch.root + RootLeaves(seeds, tree.providers)
    decreases |seeds|
  {
    if seeds != [] {
      var next := StageSeed(tree, batch, seeds[0]).value;
      StageSeedHas(tree, batch, seeds[0]);
      StageAllRoot(tree, next, seeds[1..]);
      assert RootLeaves(seeds, tree.providers) == RootOf(seeds[0], tree.providers) + RootLeaves(seeds[1..], tree.providers);
      Regroup(batch.root, RootOf(seeds[0], tree.providers), RootLeaves(seeds[1..], tree.providers));
    }
  }

  /** An accepted call stores every object it was given, with its own leaves in order, and
      appends the root's. */
  lemma AcceptedSeedsAreStored(tree: Tree, seeds: seq<ObjectSeed>)
    requires TreeOk(tree) && Registered(tree, seeds).1.None?
    ensures var after := Registered(tree, seeds).0;
            && MACHINE in after.objects
            && after.objects[MACHINE].leaves == tree.objects[MACHINE].leaves + RootLeaves(seeds, tree.providers)
            && (forall seed | seed in seeds && seed.path != MACHINE :: StoredAs(after.objects, seed, tree.providers))
  {
    StageAllHas(tree, NoBatch(tree), seeds);
    StageAllRoot(tree, NoBatch(tree), seeds);
    NoBatchOk(tree);
    StageAllOk(tree, NoBatch(tree), seeds);
    forall seed | seed in seeds && seed.path != MACHINE
      ensures StoredAs(Registered(tree, seeds).0.objects, seed, tree.providers)
    {
      assert StoredAs(StageAll(tree, NoBatch(tree), seeds).value.nodes, seed, tree.providers);
    }
  }

  function RegisteredAll(tree: Tree, calls: seq<seq<ObjectSeed>>): Tree
    requires MACHINE in tree.objects
    decreases |calls|
  {
    if calls == [] then tree
    else
      var after := Registered(tree, calls[0]).0;
      if MACHINE in after.objects then RegisteredAll(after, calls[1..]) else after
  }

  /** Over any sequence of calls, refused or not, the tree stays good. */
  lemma {:induction false} EveryTreeIsOk(calls: seq<seq<ObjectSeed>>, tree: Tree)
    requires TreeOk(tree)
    ensures TreeOk(RegisteredAll(tree, calls))
    decreases |calls|
  {
    if calls != [] {
      RegisterKeeps(tree, calls[0]);
      EveryTreeIsOk(calls[1..], Registered(tree, calls[0]).0);
    }
  }

  /** So whatever is registered from the start, the tree is good and serves as a catalog. */
  lemma RegisteredFromEmpty(calls: seq<seq<ObjectSeed>>)
    ensures TreeOk(RegisteredAll(EmptyTree(), calls)) && CatalogOk(CatalogOf(RegisteredAll(EmptyTree(), calls)))
  {
    EveryTreeIsOk(calls, EmptyTree());
    TreeIsCatalog(RegisteredAll(EmptyTree(), calls));
  }

  // ----- resolution -----

  function Records(leaves: seq<CatalogLeaf>): (r: seq<LeafRecord>)
    ensures |r| == |leaves| && forall k | 0 <= k < |r| :: r[k] == leaves[k].record
  {
    seq(|leaves|, k requires 0 <= k < |leaves| => leaves[k].record)
  }

  /** The frozen tree a plan is compiled against. */
  function CatalogOf(tree: Tree): Catalog {
    Catalog(map path | path in tree.objects :: Records(tree.objects[path].leaves), tree.aliases, tree.providers)
  }

  /** Every registered tree is a catalog a plan may be compiled against. */
  lemma TreeIsCatalog(tree: Tree)
    requires TreeOk(tree)
    ensures CatalogOk(CatalogOf(tree))
  {
    forall path, r | path in tree.objects && r in Records(tree.objects[path].leaves) ensures r.provider < tree.providers {
      assert ObjectOk(tree, path);
      var k :| 0 <= k < |tree.objects[path].leaves| && tree.objects[path].leaves[k].record == r;
      assert LeafOk(path, tree.objects[path].leaves, tree.providers, k);
    }
  }

  lemma {:induction false} FirstNamedFinds(leaves: seq<CatalogLeaf>, k: nat)
    requires k < |leaves| && forall i: nat, j: nat | i < j < |leaves| :: NamesDiffer(leaves, i, j)
    ensures FirstNamed(Records(leaves), leaves[k].record.core.name) == Some(leaves[k].record)
    decreases |leaves|
  {
    var rest := leaves[1..];
    assert Records(leaves)[1..] == Records(rest);
    if k > 0 {
      assert NamesDiffer(leaves, 0, k);
      forall i: nat, j: nat | i < j < |rest| ensures NamesDiffer(rest, i, j) { assert NamesDiffer(leaves, i + 1, j + 1); }
      FirstNamedFinds(rest, k - 1);
    }
  }

  lemma {:induction false} FirstNamedIsNamed(records: seq<LeafRecord>, name: string)
    ensures var r := FirstNamed(records, name);
            r.Some? ==> r.value in records && r.value.core.name == name
    decreases |records|
  {
    if records != [] && records[0].core.name != name { FirstNamedIsNamed(records[1..], name); }
  }

  /** The stored address of a leaf resolves to that leaf exactly when its name holds no
      separator and no alias of another object is spelled like its path. */
  lemma AddressResolvesIff(tree: Tree, path: string, k: nat)
    requires TreeOk(tree) && path in tree.objects && k < |tree.objects[path].leaves|
    ensures var leaf := tree.objects[path].leaves[k].record;
            Lookup(CatalogOf(tree), leaf.core.address) == Some(leaf) <==>
            Slashless(leaf.core.name) && (path in tree.aliases ==> tree.aliases[path] == path)
  {
    var leaves := tree.objects[path].leaves;
    var leaf := leaves[k].record;
    assert ObjectOk(tree, path) && LeafOk(path, leaves, tree.providers, k);
    var name := leaf.core.name;
    LastSlashOf(path, name);
    var (home, tail) := SplitAddress(leaf.core.address);
    if Slashless(name) {
      assert home == path && tail == name;
      if path in tree.aliases && tree.aliases[path] != path {
        ElsewhereIsAnother(tree, tree.aliases[path], name, path);
      } else {
        FirstNamedFinds(leaves, k);
      }
    } else {
      assert |tail| < |name|;
      LookupIsNamed(tree, leaf.core.address, tail);
    }
  }

  lemma LookupIsNamed(tree: Tree, address: string, tail: string)
    requires SplitAddress(address).1 == tail
    ensures Lookup(CatalogOf(tree), address).Some? ==> Lookup(CatalogOf(tree), address).value.core.name == tail
  {
    var home := SplitAddress(address).0;
    var at := if home in tree.aliases then tree.aliases[home] else home;
    if at in tree.objects { FirstNamedIsNamed(Records(tree.objects[at].leaves), tail); }
  }

  lemma ElsewhereIsAnother(tree: Tree, other: string, name: string, path: string)
    requires TreeOk(tree) && other in tree.objects && other != path
    ensures var found := FirstNamed(Records(tree.objects[other].leaves), name);
            found.Some? ==> found.value.core.address != path + "/" + name
  {
    var leaves := tree.objects[other].leaves;
    FirstNamedIsNamed(Records(leaves), name);
    var found := FirstNamed(Records(leaves), name);
    if found.Some? {
      var k :| 0 <= k < |leaves| && leaves[k].record == found.value;
      assert ObjectOk(tree, other) && LeafOk(other, leaves, tree.providers, k);
      SplitsAtLength(other, path, name);
    }
  }

  lemma SplitsAtLength(a: string, b: string, name: string)
    ensures a + "/" + name == b + "/" + name ==> a == b
  {
    if a + "/" + name == b + "/" + name {
      assert a == (a + "/" + name)[..|a|] && b == (b + "/" + name)[..|b|];
    }
  }

  /** An alias may be spelled like a stored path: the call that does so is accepted, and the
      stored address of that path's leaf no longer resolves. */
  lemma AliasCanHideAPath()
    ensures var leaf := MakeLeaf("a", CatalogSeed("x", "ops", Countable), 0);
            var seeds := [ObjectSeed("a", "", [CatalogSeed("x", "ops", Countable)], None), ObjectSeed("b", "a", [], None)];
            var (after, error) := Registered(EmptyTree(), seeds);
            && error.None? && "a" in after.objects && after.objects["a"].leaves == [leaf]
            && leaf.record.core.address == "a/x" && Lookup(CatalogOf(after), "a/x") == None
  {
    var tree := EmptyTree();
    var entry := CatalogSeed("x", "ops", Countable);
    var one, two := ObjectSeed("a", "", [entry], None), ObjectSeed("b", "a", [], None);
    assert "a" != MACHINE && "b" != MACHINE && "a" != "b" by { assert "a"[0] != "b"[0]; }
    OneLeaf(entry, "a");
    var first := StageSeed(tree, NoBatch(tree), one).value;
    var second := StageSeed(tree, first, two).value;
    assert [one, two][1..] == [two] && [two][1..] == [];
    assert StageAll(tree, second, []) == Ok(second);
    assert StageAll(tree, first, [two]) == Ok(second);
    SplitsAtName("a", "x");
    assert "a" + "/" + "x" == "a/x";
    var after := Commit(tree, second);
    assert after.aliases["a"] == "b" && after.objects["b"].leaves == [];
    assert CatalogOf(after).objects["b"] == Records([]);
  }

  lemma OneLeaf(entry: CatalogSeed, path: string)
    requires KnownUnit(entry.unit) && path != MACHINE
    ensures BuildLeaves([entry], path, [], 0, []) == Ok([MakeLeaf(path, entry, 0)])
  {
    var built := [MakeLeaf(path, entry, 0)];
    assert [] + built == built && [entry][1..] == [];
    assert BuildLeaves([], path, [], 0, built) == Ok(built);
  }

  lemma SplitsAtName(path: string, name: string)
    requires Slashless(name)
    ensures SplitAddress(path + "/" + name) == (path, name)
  {
    LastSlashOf(path, name);
    var address := path + "/" + name;
    assert address[..|path|] == path && address[|path| + 1..] == name;
  }

  // ----- the system -----

  class System {
    var objects: map<string, Node>
    var aliases: map<string, string>
    var limits: map<string, nat>
    var providers: nat
    var open: bool

    function Value(): Tree
      reads this
    {
      Tree(objects, aliases, limits, providers)
    }

    constructor ()
      ensures Value() == EmptyTree() && !open && TreeOk(Value())
    {
      objects, aliases, limits, providers, open := map[MACHINE := Node("", [])], map[], map[], 0, false;
    }

    /** The open boundary: the first resolution freezes the tree. */
    method EnsureOpen()
      modifies this`open
      ensures open
    {
      open := true;
    }

    /** `registerProvider`: a refused call leaves every table as it was. */
    method RegisterProvider(seeds: seq<ObjectSeed>) returns (error: Option<Error>)
      requires TreeOk(Value())
      modifies this
      ensures TreeOk(Value()) && open == old(open)
      ensures old(open) ==> error == Some(AlreadyOpen)
      ensures !old(open) ==> (Value(), error) == Registered(old(Value()), seeds)
      ensures error.Some? ==> Value() == old(Value())
    {
      if open {
        return Some(AlreadyOpen);
      }
      RegisterKeeps(Value(), seeds);
      var staged := StageEvery(seeds);
      match staged {
        case Err(e) => error := Some(e);
        case Ok(batch) =>
          Merge(batch);
          error := None;
      }
    }

    /** The seeds, one after the other, against the untouched tree. */
    method StageEvery(seeds: seq<ObjectSeed>) returns (r: Result<Batch, Error>)
      requires MACHINE in objects
      ensures r == StageAll(Value(), NoBatch(Value()), seeds)
    {
      var batch := NoBatch(Value());
      var n := 0;
      while n < |seeds|
        invariant 0 <= n <= |seeds|
        invariant StageAll(Value(), NoBatch(Value()), seeds) == StageAll(Value(), batch, seeds[n..])
      {
        assert seeds[n..][1..] == seeds[n + 1..];
        var staged := Stage(batch, seeds[n]);
        match staged {
          case Err(e) => return Err(e);
          case Ok(next) => batch := next;
        }
        n := n + 1;
      }
      r := Ok(batch);
    }

    /** The whole batch, once every seed has passed. */
    method Merge(batch: Batch)
      requires MACHINE in objects
      modifies this
      ensures Value() == Commit(old(Value()), batch) && open == old(open)
    {
      objects := objects[MACHINE := objects[MACHINE].(leaves := batch.root)] + batch.nodes;
      aliases := aliases + batch.aliases;
      limits := limits + batch.limits;
      providers := providers + 1;
    }

    /** One seed against the tree and what is staged. */
    method Stage(batch: Batch, seed: ObjectSeed) returns (r: Result<Batch, Error>)
      ensures r == StageSeed(Value(), batch, seed)
    {
      var onRoot := seed.path == MACHINE;
      if !onRoot && (seed.path in objects || seed.path in batch.nodes) {
        return Err(DuplicatePath(seed.path));
      }
      var built := BuildAll(seed.entries, seed.path, batch.root, providers);
      match built {
        case Err(e) => return Err(e);
        case Ok(leaves) =>
          var next := batch;
          if seed.programmable.Some? {
            next := next.(limits := next.limits[seed.path := seed.programmable.value]);
          }
          if onRoot {
            return Ok(next.(root := next.root + leaves));
          }
          if seed.alias != "" {
            if seed.alias in aliases || seed.alias in batch.aliases {
              return Err(DuplicateAlias(seed.alias));
            }
            next := next.(aliases := next.aliases[seed.alias := seed.path]);
          }
          r := Ok(next.(nodes := next.nodes[seed.path := Node(seed.alias, leaves)]));
      }
    }
  }

  /** `buildLeaves`. */
  method BuildAll(entries: seq<CatalogSeed>, path: string, root: seq<CatalogLeaf>, provider: nat)
    returns (r: Result<seq<CatalogLeaf>, Error>)
    ensures r == BuildLeaves(entries, path, root, provider, [])
  {
    var leaves: seq<CatalogLeaf> := [];
    var n := 0;
    while n < |entries|
      invariant 0 <= n <= |entries|
      invariant BuildLeaves(entries, path, root, provider, []) == BuildLeaves(entries[n..], path, root, provider, leaves)
    {
      assert entries[n..][1..] == entries[n + 1..];
      var entry := entries[n];
      if !KnownUnit(entry.unit) {
        return Err(UnknownUnit(entry.unit));
      }
      var taken := Carries(leaves, entry.name);
      var clashes := Carries(root, entry.name);
      if taken || (path == MACHINE && clashes) {
        return Err(DuplicateName(path, entry.name));
      }
      leaves := leaves + [MakeLeaf(path, entry, provider)];
      n := n + 1;
    }
    r := Ok(leaves);
  }

  method Carries(leaves: seq<CatalogLeaf>, name: string) returns (found: bool)
    ensures found == HasName(leaves, name)
  {
    for k := 0 to |leaves|
      invariant forall m: nat | m < k :: leaves[m].record.core.name != name
    {
      if leaves[k].record.core.name == name {
        assert leaves[k] in leaves;
        return true;
      }
    }
    found := false;
  }
}
