/** Plan compilation: which leaves a plan reads, in which columns, through which window. */
module Layout {
  import opened Common
  import opened Spine

  // ----- the catalog -----

  datatype Availability = Countable | PermissionBlocked | NotEncodable | Absent | ScopeRefused | Gap

  datatype TargetKind = ThreadTarget | CpuTarget

  datatype LeafRecord = LeafRecord(core: LeafCore, avail: Availability, provider: nat)

  /** The frozen tree: objects by canonical path, platform aliases, and the provider count. */
  datatype Catalog = Catalog(objects: map<string, seq<LeafRecord>>, aliases: map<string, string>, providers: nat)

  predicate CatalogOk(cat: Catalog) {
    forall path | path in cat.objects :: forall r | r in cat.objects[path] :: r.provider < cat.providers
  }

  function LastSlash(address: string): (i: int)
    ensures -1 <= i < |address| && (i >= 0 ==> address[i] == '/')
    ensures forall j | i < j < |address| :: address[j] != '/'
  {
    if address == [] then -1
    else if address[|address| - 1] == '/' then |address| - 1
    else LastSlash(address[..|address| - 1])
  }

  /** `splitLeafAddress`: the object path and the leaf name, at the last separator. */
  function SplitAddress(address: string): (string, string) {
    var slash := LastSlash(address);
    if slash < 0 then (address, "") else (address[..slash], address[slash + 1..])
  }

  lemma {:induction false} LastSlashOf(path: string, name: string)
    ensures Slashless(name) ==> LastSlash(path + "/" + name) == |path|
    ensures !Slashless(name) ==> LastSlash(path + "/" + name) > |path|
    decreases |name|
  {
    var address := path + "/" + name;
    if name == "" {
      assert address[|address| - 1] == '/';
    } else {
      var front := name[..|name| - 1];
      assert address[..|address| - 1] == path + "/" + front;
      assert address[|address| - 1] == name[|name| - 1];
      LastSlashOf(path, front);
      assert name == front + [name[|name| - 1]];
    }
  }

  function FirstNamed(records: seq<LeafRecord>, name: string): Option<LeafRecord> {
    if records == [] then None
    else if records[0].core.name == name then Some(records[0])
    else FirstNamed(records[1..], name)
  }

  lemma FirstNamedIn(records: seq<LeafRecord>, name: string)
    ensures FirstNamed(records, name).Some? ==> FirstNamed(records, name).value in records
  {
  }

  function Lookup(cat: Catalog, address: string): Option<LeafRecord> {
    var (path, name) := SplitAddress(address);
    var home := if path in cat.aliases then cat.aliases[path] else path;
    if home in cat.objects then FirstNamed(cat.objects[home], name) else None
  }

  /** `availabilityGatePasses`. */
  predicate GatePasses(probed: Availability, requested: TargetKind) {
    probed == Countable || (probed == ScopeRefused && requested == CpuTarget)
  }

  // ----- what a plan reads -----

  datatype CompileError =
    | NoExpression
    | NoLeaves
    | UnknownLeaf(address: string)
    | NotCountable(address: string, avail: Availability)
    | WindowRefused(provider: nat)

  /** A leaf to read: its address and the catalog record it bound to. */
  datatype Pending = Pending(address: string, provider: nat)

  predicate Seen(pending: seq<Pending>, address: string) {
    exists p | p in pending :: p.address == address
  }

  function GatherLeaves(cat: Catalog, kind: TargetKind, leaves: seq<LeafCore>, acc: seq<Pending>)
    : Result<seq<Pending>, CompileError>
  {
    if leaves == [] then Ok(acc)
    else if Seen(acc, leaves[0].address) then GatherLeaves(cat, kind, leaves[1..], acc)
    else
      match Lookup(cat, leaves[0].address)
      case None => Err(UnknownLeaf(leaves[0].address))
      case Some(r) =>
        if !GatePasses(r.avail, kind) then Err(NotCountable(leaves[0].address, r.avail))
        else GatherLeaves(cat, kind, leaves[1..], acc + [Pending(leaves[0].address, r.provider)])
  }

  function Gather<V>(cat: Catalog, kind: TargetKind, exprs: seq<Core<V>>, acc: seq<Pending>)
    : Result<seq<Pending>, CompileError>
  {
    if exprs == [] then Ok(acc)
    else if exprs[0].leaves == [] then Err(NoLeaves)
    else
      match GatherLeaves(cat, kind, exprs[0].leaves, acc)
      case Err(e) => Err(e)
      case Ok(next) => Gather(cat, kind, exprs[1..], next)
  }

  /** Distinct addresses, each bound to a countable catalog record of a known provider. */
  ghost predicate PendingOk(cat: Catalog, kind: TargetKind, pending: seq<Pending>) {
    && AddressesDiffer(pending)
    && (forall p | p in pending ::
          Lookup(cat, p.address).Some? && Lookup(cat, p.address).value.provider == p.provider
          && GatePasses(Lookup(cat, p.address).value.avail, kind) && p.provider < cat.providers)
  }

  lemma LookupBounded(cat: Catalog, address: string)
    requires CatalogOk(cat) && Lookup(cat, address).Some?
    ensures Lookup(cat, address).value.provider < cat.providers
  {
    var (path, name) := SplitAddress(address);
    var home := if path in cat.aliases then cat.aliases[path] else path;
    FirstNamedIn(cat.objects[home], name);
  }

  /** Gathering keeps what is there, adds every leaf's address, and nothing else. */
  lemma {:induction false} GatherLeavesOk(cat: Catalog, kind: TargetKind, leaves: seq<LeafCore>, acc: seq<Pending>)
    requires CatalogOk(cat) && PendingOk(cat, kind, acc) && GatherLeaves(cat, kind, leaves, acc).Ok?
    ensures var out := GatherLeaves(cat, kind, leaves, acc).value;
            PendingOk(cat, kind, out) && acc <= out
            && (forall a :: Seen(out, a) <==> Seen(acc, a) || a in AddressesOf(leaves))
    decreases |leaves|
  {
    if leaves != [] {
      var first := leaves[0].address;
      assert AddressesOf(leaves) == {first} + AddressesOf(leaves[1..]) by {
        assert leaves == [leaves[0]] + leaves[1..];
      }
      if Seen(acc, first) {
        GatherLeavesOk(cat, kind, leaves[1..], acc);
      } else {
        var r := Lookup(cat, first).value;
        LookupBounded(cat, first);
        var next := acc + [Pending(first, r.provider)];
        forall a ensures Seen(next, a) <==> Seen(acc, a) || a == first {
          assert next[|acc|] in next;
          if Seen(acc, a) {
            var p :| p in acc && p.address == a;
            assert p in next;
          }
        }
        assert PendingOk(cat, kind, next) by {
          forall i, j | 0 <= i < j < |next| ensures next[i].address != next[j].address {
            assert i < |acc| ==> next[i] in acc;
          }
        }
        GatherLeavesOk(cat, kind, leaves[1..], next);
      }
    }
  }

  ghost predicate Uses<V>(exprs: seq<Core<V>>, address: string) {
    exists e | e in exprs :: address in AddressesOf(e.leaves)
  }

  lemma UsesSplit<V>(exprs: seq<Core<V>>, address: string)
    requires exprs != []
    ensures Uses(exprs, address) <==> address in AddressesOf(exprs[0].leaves) || Uses(exprs[1..], address)
  {
    assert exprs == [exprs[0]] + exprs[1..];
  }

  lemma {:induction false} GatherOk<V>(cat: Catalog, kind: TargetKind, exprs: seq<Core<V>>, acc: seq<Pending>)
    requires CatalogOk(cat) && PendingOk(cat, kind, acc) && Gather(cat, kind, exprs, acc).Ok?
    ensures var out := Gather(cat, kind, exprs, acc).value;
            PendingOk(cat, kind, out)
            && (forall a :: Seen(out, a) <==> Seen(acc, a) || Uses(exprs, a))
            && (forall e | e in exprs :: e.leaves != [])
    decreases |exprs|
  {
    if exprs != [] {
      GatherLeavesOk(cat, kind, exprs[0].leaves, acc);
      var next := GatherLeaves(cat, kind, exprs[0].leaves, acc).value;
      GatherOk(cat, kind, exprs[1..], next);
      forall a ensures Uses(exprs, a) <==> a in AddressesOf(exprs[0].leaves) || Uses(exprs[1..], a) { UsesSplit(exprs, a); }
      assert exprs == [exprs[0]] + exprs[1..];
    }
  }

  // ----- where a plan reads it -----

  /** One window: the contiguous slots it fills, and the column it discloses its state in. */
  datatype ReadGroup = ReadGroup(provider: nat, offset: nat, count: nat, disclosureSlot: nat)

  datatype Plan = Plan(slots: seq<Pending>, byAddress: map<string, nat>, groups: seq<ReadGroup>) {
    function LeafCount(): nat {
      |slots|
    }

    function ColumnCount(): nat {
      |slots| + |groups|
    }
  }

  function Mine(pending: seq<Pending>, provider: nat): seq<Pending>
    decreases |pending|
  {
    if pending == [] then []
    else
      var rest := Mine(pending[..|pending| - 1], provider);
      var p := pending[|pending| - 1];
      if p.provider == provider then rest + [p] else rest
  }

  /** The slots of the providers below `upTo`, provider by provider. */
  function SlotsOf(pending: seq<Pending>, upTo: nat): seq<Pending> {
    if upTo == 0 then [] else SlotsOf(pending, upTo - 1) + Mine(pending, upTo - 1)
  }

  function GroupsOf(pending: seq<Pending>, upTo: nat, total: nat): seq<ReadGroup> {
    if upTo == 0 then []
    else
      var before := GroupsOf(pending, upTo - 1, total);
      var mine := Mine(pending, upTo - 1);
      if mine == [] then before
      else before + [ReadGroup(upTo - 1, |SlotsOf(pending, upTo - 1)|, |mine|, total + |before|)]
  }

  function Indexed(slots: seq<Pending>): map<string, nat>
    decreases |slots|
  {
    if slots == [] then map[]
    else
      var rest := Indexed(slots[..|slots| - 1]);
      var a := slots[|slots| - 1].address;
      if a in rest then rest else rest[a := |slots| - 1]
  }

  function PlanOf(pending: seq<Pending>, providers: nat): Plan {
    var slots := SlotsOf(pending, providers);
    Plan(slots, Indexed(slots), GroupsOf(pending, providers, |slots|))
  }

  /** A provider's answer to opening a window over addresses, with its disclosure column. */
  type Opener = (nat, seq<string>, nat) -> bool

  function AddressesIn(slots: seq<Pending>): (r: seq<string>)
    ensures |r| == |slots| && forall i | 0 <= i < |slots| :: r[i] == slots[i].address
    decreases |slots|
  {
    if slots == [] then [] else AddressesIn(slots[..|slots| - 1]) + [slots[|slots| - 1].address]
  }

  /** The first window, in group order, that its provider declines. */
  function Refused(plan: Plan, pending: seq<Pending>, opens: Opener, from: nat): Option<nat>
    requires from <= |plan.groups|
    decreases |plan.groups| - from
  {
    if from == |plan.groups| then None
    else
      var g := plan.groups[from];
      if !opens(g.provider, AddressesIn(Mine(pending, g.provider)), g.disclosureSlot) then Some(g.provider)
      else Refused(plan, pending, opens, from + 1)
  }

  function Compiled<V>(cat: Catalog, kind: TargetKind, exprs: seq<Core<V>>, opens: Opener): Result<Plan, CompileError> {
    if exprs == [] then Err(NoExpression)
    else
      match Gather(cat, kind, exprs, [])
      case Err(e) => Err(e)
      case Ok(pending) =>
        var plan := PlanOf(pending, cat.providers);
        match Refused(plan, pending, opens, 0)
        case Some(provider) => Err(WindowRefused(provider))
        case None => Ok(plan)
  }

  // ----- what the layout promises -----

  predicate Within(group: ReadGroup, slot: int) {
    group.offset <= slot < group.offset + group.count
  }

  /** A window is not empty, fills slots of its own provider only, and discloses in the
      column given. */
  ghost predicate Fits(slots: seq<Pending>, group: ReadGroup, disclosure: nat) {
    && group.count > 0 && group.disclosureSlot == disclosure && group.offset + group.count <= |slots|
    && (forall i | Within(group, i) :: slots[i].provider == group.provider)
  }

  predicate Before(low: ReadGroup, high: ReadGroup) {
    low.offset + low.count <= high.offset && low.provider < high.provider
  }

  ghost predicate Covered(groups: seq<ReadGroup>, slot: int) {
    exists group :: group in groups && Within(group, slot)
  }

  /** The groups tile the slots in provider order; each owns one disclosure column past
      all slots; each slot belongs to its own provider's group. */
  ghost predicate Tiling(slots: seq<Pending>, groups: seq<ReadGroup>, total: nat) {
    && (forall g: nat | g < |groups| :: Fits(slots, groups[g], total + g))
    && (forall g, h | 0 <= g < h < |groups| :: Before(groups[g], groups[h]))
    && (forall i: nat | i < |slots| :: Covered(groups, i))
  }

  ghost predicate Tiled(plan: Plan) {
    Tiling(plan.slots, plan.groups, |plan.slots|)
  }

  /** A column index and the address read there are two names of one slot. */
  ghost predicate Addressed(plan: Plan) {
    && (forall a | a in plan.byAddress ::
          plan.byAddress[a] < |plan.slots| && plan.slots[plan.byAddress[a]].address == a)
    && (forall i: nat | i < |plan.slots| ::
          plan.slots[i].address in plan.byAddress && plan.byAddress[plan.slots[i].address] == i)
  }

  lemma {:induction false} MineOk(pending: seq<Pending>, provider: nat)
    ensures forall p :: p in Mine(pending, provider) <==> p in pending && p.provider == provider
    ensures AddressesDiffer(pending) ==> AddressesDiffer(Mine(pending, provider))
    decreases |pending|
  {
    if pending != [] {
      var front, last := pending[..|pending| - 1], pending[|pending| - 1];
      MineOk(front, provider);
      assert pending == front + [last];
      if AddressesDiffer(pending) && last.provider == provider {
        forall a, b | a in Mine(front, provider) && b in [last] ensures a.address != b.address {
          var k :| 0 <= k < |front| && front[k] == a;
          assert pending[k] == a;
        }
        JoinedDiffer(Mine(front, provider), [last]);
      }
    }
  }

  lemma {:induction false} SlotsAre(pending: seq<Pending>, upTo: nat)
    ensures forall p :: p in SlotsOf(pending, upTo) <==> p in pending && p.provider < upTo
  {
    if upTo > 0 {
      SlotsAre(pending, upTo - 1);
      MineOk(pending, upTo - 1);
    }
  }

  predicate AddressesDiffer(slots: seq<Pending>) {
    forall i, j | 0 <= i < j < |slots| :: slots[i].address != slots[j].address
  }

  lemma OwnersDiffer(pending: seq<Pending>, a: Pending, b: Pending)
    requires AddressesDiffer(pending) && a in pending && b in pending && a.provider != b.provider
    ensures a.address != b.address
  {
  }

  lemma JoinedDiffer(before: seq<Pending>, mine: seq<Pending>)
    requires AddressesDiffer(before) && AddressesDiffer(mine)
    requires forall a, b | a in before && b in mine :: a.address != b.address
    ensures AddressesDiffer(before + mine)
  {
    var all := before + mine;
    forall i, j | 0 <= i < j < |all| ensures all[i].address != all[j].address {
      if i < |before| <= j { assert before[i] in before && mine[j - |before|] in mine; }
    }
  }

  lemma {:induction false} SlotsOk(pending: seq<Pending>, upTo: nat)
    requires AddressesDiffer(pending)
    ensures AddressesDiffer(SlotsOf(pending, upTo))
  {
    if upTo > 0 {
      SlotsOk(pending, upTo - 1);
      SlotsAre(pending, upTo - 1);
      MineOk(pending, upTo - 1);
      var before, mine := SlotsOf(pending, upTo - 1), Mine(pending, upTo - 1);
      forall a, b | a in before && b in mine ensures a.address != b.address { OwnersDiffer(pending, a, b); }
      JoinedDiffer(before, mine);
    }
  }

  lemma {:induction false} IndexedOk(slots: seq<Pending>)
    requires AddressesDiffer(slots)
    ensures var index := Indexed(slots);
            && (forall a | a in index :: index[a] < |slots| && slots[index[a]].address == a)
            && (forall i: nat | i < |slots| :: slots[i].address in index && index[slots[i].address] == i)
    decreases |slots|
  {
    if slots != [] {
      var front := slots[..|slots| - 1];
      IndexedOk(front);
      forall i: nat | i < |slots| ensures slots[i].address in Indexed(slots) && Indexed(slots)[slots[i].address] == i {
        if i < |front| { assert front[i] == slots[i]; }
      }
    }
  }

  lemma {:induction false} SlotsGrow(pending: seq<Pending>, low: nat, high: nat)
    requires low <= high
    ensures SlotsOf(pending, low) <= SlotsOf(pending, high)
    decreases high
  {
    if low < high { SlotsGrow(pending, low, high - 1); }
  }

  /** Each window is opened over the addresses of its own slots, in slot order. */
  ghost predicate OpensItsSlots(pending: seq<Pending>, slots: seq<Pending>, group: ReadGroup) {
    group.offset + group.count <= |slots|
    && slots[group.offset..group.offset + group.count] == Mine(pending, group.provider)
  }

  lemma {:induction false} WindowsOpenTheirSlots(pending: seq<Pending>, upTo: nat, total: nat)
    ensures forall group | group in GroupsOf(pending, upTo, total) ::
              OpensItsSlots(pending, SlotsOf(pending, upTo), group) && group.provider < upTo
  {
    if upTo > 0 {
      WindowsOpenTheirSlots(pending, upTo - 1, total);
      var earlier, slots, mine := SlotsOf(pending, upTo - 1), SlotsOf(pending, upTo), Mine(pending, upTo - 1);
      forall group | group in GroupsOf(pending, upTo, total)
        ensures OpensItsSlots(pending, slots, group) && group.provider < upTo
      {
        if group in GroupsOf(pending, upTo - 1, total) {
          assert slots[group.offset..group.offset + group.count]
              == earlier[group.offset..group.offset + group.count];
        } else {
          assert slots[|earlier|..|earlier| + |mine|] == mine;
        }
      }
    }
  }

  lemma FitsItsOwn(pending: seq<Pending>, slots: seq<Pending>, group: ReadGroup, disclosure: nat)
    requires OpensItsSlots(pending, slots, group) && group.count > 0 && group.disclosureSlot == disclosure
    ensures Fits(slots, group, disclosure)
  {
    MineOk(pending, group.provider);
    var mine := Mine(pending, group.provider);
    forall i | Within(group, i) ensures slots[i].provider == group.provider {
      assert slots[i] == mine[i - group.offset] && mine[i - group.offset] in mine;
    }
  }

  lemma {:induction false} GroupsNumbered(pending: seq<Pending>, upTo: nat, total: nat, g: nat)
    requires g < |GroupsOf(pending, upTo, total)|
    ensures GroupsOf(pending, upTo, total)[g].count > 0
    ensures GroupsOf(pending, upTo, total)[g].disclosureSlot == total + g
  {
    if upTo > 0 && g < |GroupsOf(pending, upTo - 1, total)| {
      GroupsNumbered(pending, upTo - 1, total, g);
    }
  }

  lemma {:induction false} GroupsOrdered(pending: seq<Pending>, upTo: nat, total: nat, g: nat, h: nat)
    requires g < h < |GroupsOf(pending, upTo, total)|
    ensures Before(GroupsOf(pending, upTo, total)[g], GroupsOf(pending, upTo, total)[h])
  {
    if upTo > 0 {
      var groups, before := GroupsOf(pending, upTo, total), GroupsOf(pending, upTo - 1, total);
      if h < |before| {
        GroupsOrdered(pending, upTo - 1, total, g, h);
        assert groups[g] == before[g] && groups[h] == before[h];
      } else {
        WindowsOpenTheirSlots(pending, upTo - 1, total);
        assert groups[g] == before[g] && before[g] in before;
        assert OpensItsSlots(pending, SlotsOf(pending, upTo - 1), before[g]);
      }
    }
  }

  lemma {:induction false} GroupsCover(pending: seq<Pending>, upTo: nat, total: nat)
    ensures forall i: nat | i < |SlotsOf(pending, upTo)| :: Covered(GroupsOf(pending, upTo, total), i)
  {
    if upTo > 0 {
      GroupsCover(pending, upTo - 1, total);
      var groups, before := GroupsOf(pending, upTo, total), GroupsOf(pending, upTo - 1, total);
      forall i: nat | i < |SlotsOf(pending, upTo)| ensures Covered(groups, i) {
        if i < |SlotsOf(pending, upTo - 1)| {
          assert Covered(before, i);
          var group :| group in before && Within(group, i);
          assert group in groups;
        } else {
          assert groups[|before|] in groups && Within(groups[|before|], i);
        }
      }
    }
  }

  /** The groups laid out provider by provider tile the slots laid out the same way. */
  lemma GroupsTile(pending: seq<Pending>, upTo: nat, total: nat)
    ensures Tiling(SlotsOf(pending, upTo), GroupsOf(pending, upTo, total), total)
  {
    GroupsCover(pending, upTo, total);
    WindowsOpenTheirSlots(pending, upTo, total);
    var slots, groups := SlotsOf(pending, upTo), GroupsOf(pending, upTo, total);
    forall g: nat | g < |groups| ensures Fits(slots, groups[g], total + g) {
      assert groups[g] in groups;
      GroupsNumbered(pending, upTo, total, g);
      FitsItsOwn(pending, slots, groups[g], total + g);
    }
    forall g, h | 0 <= g < h < |groups| ensures Before(groups[g], groups[h]) {
      GroupsOrdered(pending, upTo, total, g, h);
    }
  }

  /** Every slot is the catalog's record of its address, and may be counted. */
  ghost predicate BoundTo(cat: Catalog, kind: TargetKind, slot: Pending) {
    && Lookup(cat, slot.address).Some?
    && Lookup(cat, slot.address).value.provider == slot.provider
    && GatePasses(Lookup(cat, slot.address).value.avail, kind)
  }

  /** What `compileCore` promises of a plan it returns: it reads exactly the addresses the
      expressions use, each in one column of its own provider's group. */
  lemma CompiledOk<V>(cat: Catalog, kind: TargetKind, exprs: seq<Core<V>>, opens: Opener)
    requires CatalogOk(cat) && Compiled(cat, kind, exprs, opens).Ok?
    ensures var plan := Compiled(cat, kind, exprs, opens).value;
            && Tiled(plan) && Addressed(plan)
            && (forall a :: a in plan.byAddress <==> Uses(exprs, a))
            && (forall slot | slot in plan.slots :: BoundTo(cat, kind, slot))
  {
    var pending := Gather(cat, kind, exprs, []).value;
    assert PendingOk(cat, kind, []);
    GatherOk(cat, kind, exprs, []);
    PlanIsOk(cat, kind, pending);
  }

  lemma PlanIsOk(cat: Catalog, kind: TargetKind, pending: seq<Pending>)
    requires PendingOk(cat, kind, pending)
    ensures var plan := PlanOf(pending, cat.providers);
            && Tiled(plan) && Addressed(plan)
            && (forall a :: a in plan.byAddress <==> Seen(pending, a))
            && (forall slot | slot in plan.slots :: BoundTo(cat, kind, slot))
  {
    var plan := PlanOf(pending, cat.providers);
    SlotsAre(pending, cat.providers);
    SlotsOk(pending, cat.providers);
    IndexedOk(plan.slots);
    GroupsTile(pending, cat.providers, |plan.slots|);
    forall a ensures a in plan.byAddress <==> Seen(pending, a) {
      if Seen(pending, a) {
        var p :| p in pending && p.address == a;
        assert p in plan.slots;
      }
      if a in plan.byAddress {
        assert plan.slots[plan.byAddress[a]] in pending;
      }
    }
  }

  // ----- which column discloses a slot's state -----

  /** `disclosureSlotFor`: the first group whose range ends past the slot; the plan's own
      column, the first group's, where no group does. */
  function DisclosureSlotFor(plan: Plan, slot: nat, from: nat): nat
    requires from <= |plan.groups| && plan.groups != []
    decreases |plan.groups| - from
  {
    if from == |plan.groups| then plan.groups[0].disclosureSlot
    else if slot < plan.groups[from].offset + plan.groups[from].count then plan.groups[from].disclosureSlot
    else DisclosureSlotFor(plan, slot, from + 1)
  }

  lemma {:induction false} ScanFindsOwner(plan: Plan, slot: nat, from: nat, g: nat)
    requires Tiled(plan) && from <= g < |plan.groups| && Within(plan.groups[g], slot)
    ensures DisclosureSlotFor(plan, slot, from) == |plan.slots| + g
    decreases g - from
  {
    assert Fits(plan.slots, plan.groups[g], |plan.slots| + g);
    if from < g {
      assert Before(plan.groups[from], plan.groups[g]);
      ScanFindsOwner(plan, slot, from + 1, g);
    }
  }

  /** The scan reads the column of the one group that owns the slot. */
  lemma SlotHasOneOwner(plan: Plan, slot: nat) returns (g: nat)
    requires Tiled(plan) && slot < |plan.slots|
    ensures g < |plan.groups| && Within(plan.groups[g], slot)
    ensures plan.groups[g].provider == plan.slots[slot].provider
    ensures forall h: nat | h < |plan.groups| && h != g :: !Within(plan.groups[h], slot)
    ensures DisclosureSlotFor(plan, slot, 0) == plan.groups[g].disclosureSlot == |plan.slots| + g
  {
    assert Covered(plan.groups, slot);
    var group :| group in plan.groups && Within(group, slot);
    g :| g < |plan.groups| && plan.groups[g] == group;
    assert Fits(plan.slots, plan.groups[g], |plan.slots| + g);
    ScanFindsOwner(plan, slot, 0, g);
    forall h: nat | h < |plan.groups| && h != g ensures !Within(plan.groups[h], slot) {
      if h < g {
        assert Before(plan.groups[h], plan.groups[g]);
      } else {
        assert Before(plan.groups[g], plan.groups[h]);
      }
    }
  }
}
