/** When a compile gives a plan and which error it gives otherwise, said of the expressions
    and the catalog alone: the addresses in the order they are first used, the records they
    bind to, and one window a provider. */
module CompileOutcome {
  import opened Common
  import opened Spine
  import opened Layout

  // ----- what a compile reads -----

  /** The address can be counted on the target: its record is countable, or one that only
      refuses the thread scope. */
  predicate Sound(cat: Catalog, kind: TargetKind, address: string) {
    Lookup(cat, address).Some?
    && (Lookup(cat, address).value.avail == Countable
        || (Lookup(cat, address).value.avail == ScopeRefused && kind == CpuTarget))
  }

  predicate SoundLeaves(cat: Catalog, kind: TargetKind, leaves: seq<LeafCore>) {
    forall l | l in leaves :: Sound(cat, kind, l.address)
  }

  /** Every expression names a leaf, and every leaf can be counted. */
  ghost predicate AllSound<V>(cat: Catalog, kind: TargetKind, exprs: seq<Core<V>>) {
    forall e | e in exprs :: e.leaves != [] && SoundLeaves(cat, kind, e.leaves)
  }

  function AddressList(leaves: seq<LeafCore>): seq<string> {
    if leaves == [] then [] else [leaves[0].address] + AddressList(leaves[1..])
  }

  /** Every address of every expression, in the order a compile walks them. */
  function Walked<V>(exprs: seq<Core<V>>): seq<string> {
    if exprs == [] then [] else AddressList(exprs[0].leaves) + Walked(exprs[1..])
  }

  /** The addresses seen once a list is walked: each where it first appears. */
  function SeenAfter(seen: seq<string>, walked: seq<string>): seq<string>
    decreases |walked|
  {
    if walked == [] then seen
    else SeenAfter(if walked[0] in seen then seen else seen + [walked[0]], walked[1..])
  }

  /** The addresses a compile reads, in the order they are first used. */
  function UsesOf<V>(exprs: seq<Core<V>>): seq<string> {
    SeenAfter([], Walked(exprs))
  }

  /** Who owns an address: the provider of the record it names, if it names one. */
  type Owner = string -> Option<nat>

  function OwnerIn(cat: Catalog): Owner {
    a => var r := Lookup(cat, a); if r.Some? then Some(r.value.provider) else None
  }

  /** The addresses one provider owns, in order: what its window is opened over. */
  function OwnedBy(owner: Owner, addresses: seq<string>, provider: nat): seq<string>
    decreases |addresses|
  {
    if addresses == [] then []
    else
      var rest := OwnedBy(owner, addresses[..|addresses| - 1], provider);
      var last := addresses[|addresses| - 1];
      if owner(last) == Some(provider) then rest + [last] else rest
  }

  /** The providers below `upTo` that own some address. */
  function Busy(owner: Owner, addresses: seq<string>, upTo: nat): nat {
    if upTo == 0 then 0
    else Busy(owner, addresses, upTo - 1) + (if OwnedBy(owner, addresses, upTo - 1) != [] then 1 else 0)
  }

  /** The provider owns nothing that is read, or opens its window over what it owns, with its
      disclosure column behind every slot and every earlier provider's column. */
  predicate Opens(owner: Owner, uses: seq<string>, opens: Opener, provider: nat) {
    var owned := OwnedBy(owner, uses, provider);
    owned == [] || opens(provider, owned, |uses| + Busy(owner, uses, provider))
  }

  // ----- the first fault -----

  /** The error a leaf that cannot be counted gives. */
  predicate Faults(cat: Catalog, kind: TargetKind, address: string, error: CompileError) {
    match Lookup(cat, address)
    case None => error == UnknownLeaf(address)
    case Some(r) => !Sound(cat, kind, address) && error == NotCountable(address, r.avail)
  }

  /** Leaf `k` is the first of the list that cannot be counted. */
  predicate FaultAt(cat: Catalog, kind: TargetKind, leaves: seq<LeafCore>, k: nat, error: CompileError) {
    k < |leaves| && SoundLeaves(cat, kind, leaves[..k]) && Faults(cat, kind, leaves[k].address, error)
  }

  /** Expression `e` is the first that names no leaf or holds one that cannot be counted. */
  ghost predicate FailsAt<V>(cat: Catalog, kind: TargetKind, exprs: seq<Core<V>>, e: nat, error: CompileError) {
    && e < |exprs| && AllSound(cat, kind, exprs[..e])
    && if exprs[e].leaves == [] then error == NoLeaves
       else exists k: nat :: FaultAt(cat, kind, exprs[e].leaves, k, error)
  }

  lemma {:induction false} GatherLeavesOutcome(cat: Catalog, kind: TargetKind, leaves: seq<LeafCore>, acc: seq<Pending>)
    requires forall p | p in acc :: Sound(cat, kind, p.address)
    ensures var out := GatherLeaves(cat, kind, leaves, acc);
            && (out.Ok? ==> SoundLeaves(cat, kind, leaves) && forall p | p in out.value :: Sound(cat, kind, p.address))
            && (out.Err? ==> exists k: nat :: FaultAt(cat, kind, leaves, k, out.error))
    decreases |leaves|
  {
    if leaves != [] {
      var a := leaves[0].address;
      var out := GatherLeaves(cat, kind, leaves, acc);
      assert leaves == [leaves[0]] + leaves[1..];
      if Seen(acc, a) || Sound(cat, kind, a) {
        var next := if Seen(acc, a) then acc else acc + [Pending(a, Lookup(cat, a).value.provider)];
        GatherLeavesOutcome(cat, kind, leaves[1..], next);
        assert out == GatherLeaves(cat, kind, leaves[1..], next);
        if out.Err? {
          var k: nat :| FaultAt(cat, kind, leaves[1..], k, out.error);
          assert leaves[..k + 1] == [leaves[0]] + leaves[1..][..k];
          assert FaultAt(cat, kind, leaves, k + 1, out.error);
        }
      } else {
        assert FaultAt(cat, kind, leaves, 0, out.error);
      }
    }
  }

  lemma FailsLater<V>(cat: Catalog, kind: TargetKind, exprs: seq<Core<V>>, e: nat, error: CompileError)
    requires exprs != [] && exprs[0].leaves != [] && SoundLeaves(cat, kind, exprs[0].leaves)
    requires FailsAt(cat, kind, exprs[1..], e, error)
    ensures FailsAt(cat, kind, exprs, e + 1, error)
  {
    assert exprs[..e + 1] == [exprs[0]] + exprs[1..][..e];
  }

  lemma {:induction false} GatherOutcome<V>(cat: Catalog, kind: TargetKind, exprs: seq<Core<V>>, acc: seq<Pending>)
    requires forall p | p in acc :: Sound(cat, kind, p.address)
    ensures var out := Gather(cat, kind, exprs, acc);
            && (out.Ok? ==> AllSound(cat, kind, exprs))
            && (out.Err? ==> exists e: nat :: FailsAt(cat, kind, exprs, e, out.error))
    decreases |exprs|
  {
    if exprs != [] {
      var out := Gather(cat, kind, exprs, acc);
      GatherLeavesOutcome(cat, kind, exprs[0].leaves, acc);
      assert exprs == [exprs[0]] + exprs[1..];
      var first := GatherLeaves(cat, kind, exprs[0].leaves, acc);
      if exprs[0].leaves != [] && first.Ok? {
        GatherOutcome(cat, kind, exprs[1..], first.value);
        if out.Err? {
          var e: nat :| FailsAt(cat, kind, exprs[1..], e, out.error);
          FailsLater(cat, kind, exprs, e, out.error);
        }
      } else {
        assert FailsAt(cat, kind, exprs, 0, out.error);
      }
    }
  }

  lemma SoundBelow(cat: Catalog, kind: TargetKind, leaves: seq<LeafCore>, k: nat, j: nat)
    requires j < k <= |leaves| && SoundLeaves(cat, kind, leaves[..k])
    ensures Sound(cat, kind, leaves[j].address)
  {
    assert leaves[j] == leaves[..k][j];
  }

  lemma FaultsOnce(cat: Catalog, kind: TargetKind, leaves: seq<LeafCore>, j: nat, k: nat, one: CompileError, two: CompileError)
    requires FaultAt(cat, kind, leaves, j, one) && FaultAt(cat, kind, leaves, k, two)
    ensures j == k && one == two && !SoundLeaves(cat, kind, leaves)
  {
    assert leaves[j] in leaves;
    if j < k { SoundBelow(cat, kind, leaves, k, j); }
    if k < j { SoundBelow(cat, kind, leaves, j, k); }
  }

  /** A fault leaves no room for another, nor for a sound whole. */
  lemma FailsOnce<V>(cat: Catalog, kind: TargetKind, exprs: seq<Core<V>>, d: nat, e: nat, one: CompileError, two: CompileError)
    requires FailsAt(cat, kind, exprs, d, one) && FailsAt(cat, kind, exprs, e, two)
    ensures d == e && one == two && !AllSound(cat, kind, exprs)
  {
    FailsInside(cat, kind, exprs, d, one);
    FailsInside(cat, kind, exprs, e, two);
    if d < e { AllSoundBelow(cat, kind, exprs, e, d); }
    if e < d { AllSoundBelow(cat, kind, exprs, d, e); }
    assert exprs[d] in exprs;
    if exprs[d].leaves != [] {
      var j: nat :| FaultAt(cat, kind, exprs[d].leaves, j, one);
      var k: nat :| FaultAt(cat, kind, exprs[d].leaves, k, two);
      FaultsOnce(cat, kind, exprs[d].leaves, j, k, one, two);
    }
  }

  lemma AllSoundBelow<V>(cat: Catalog, kind: TargetKind, exprs: seq<Core<V>>, e: nat, d: nat)
    requires d < e <= |exprs| && AllSound(cat, kind, exprs[..e])
    ensures exprs[d].leaves != [] && SoundLeaves(cat, kind, exprs[d].leaves)
  {
    assert exprs[d] == exprs[..e][d];
  }

  lemma FailsInside<V>(cat: Catalog, kind: TargetKind, exprs: seq<Core<V>>, d: nat, error: CompileError)
    requires FailsAt(cat, kind, exprs, d, error)
    ensures exprs[d].leaves == [] || !SoundLeaves(cat, kind, exprs[d].leaves)
  {
    if exprs[d].leaves != [] {
      var k: nat :| FaultAt(cat, kind, exprs[d].leaves, k, error);
      assert exprs[d].leaves[k] in exprs[d].leaves;
    }
  }

  // ----- what is gathered -----

  lemma {:induction false} SeenAfterBoth(seen: seq<string>, one: seq<string>, two: seq<string>)
    ensures SeenAfter(seen, one + two) == SeenAfter(SeenAfter(seen, one), two)
    decreases |one|
  {
    if one == [] {
      assert one + two == two;
    } else {
      assert (one + two)[1..] == one[1..] + two;
      SeenAfterBoth(if one[0] in seen then seen else seen + [one[0]], one[1..], two);
    }
  }

  lemma SeenIs(pending: seq<Pending>, a: string)
    ensures Seen(pending, a) <==> a in AddressesIn(pending)
  {
    if Seen(pending, a) {
      var p :| p in pending && p.address == a;
      var i :| 0 <= i < |pending| && pending[i] == p;
      assert AddressesIn(pending)[i] == a;
    }
    if a in AddressesIn(pending) {
      var i :| 0 <= i < |pending| && AddressesIn(pending)[i] == a;
      assert pending[i] in pending;
    }
  }

  /** Each pending entry is bound to its address's owner. */
  ghost predicate Bound(owner: Owner, pending: seq<Pending>) {
    forall p | p in pending :: owner(p.address) == Some(p.provider)
  }

  lemma AddressesInMore(pending: seq<Pending>, p: Pending)
    ensures AddressesIn(pending + [p]) == AddressesIn(pending) + [p.address]
  {
    assert (pending + [p])[..|pending|] == pending;
  }

  /** One more address walked: nothing if it was seen, else one entry of its owner. */
  function Next(owner: Owner, acc: seq<Pending>, a: string): seq<Pending> {
    if Seen(acc, a) || owner(a).None? then acc else acc + [Pending(a, owner(a).value)]
  }

  lemma NextUses(owner: Owner, acc: seq<Pending>, a: string)
    requires Bound(owner, acc) && (Seen(acc, a) || owner(a).Some?)
    ensures var seen := AddressesIn(acc);
            AddressesIn(Next(owner, acc, a)) == if a in seen then seen else seen + [a]
    ensures Bound(owner, Next(owner, acc, a))
  {
    SeenIs(acc, a);
    if !Seen(acc, a) { AddressesInMore(acc, Pending(a, owner(a).value)); }
  }

  lemma GatherStep(cat: Catalog, kind: TargetKind, leaves: seq<LeafCore>, acc: seq<Pending>)
    requires leaves != [] && GatherLeaves(cat, kind, leaves, acc).Ok?
    ensures var owner, a := OwnerIn(cat), leaves[0].address;
            && (Seen(acc, a) || owner(a).Some?)
            && GatherLeaves(cat, kind, leaves, acc) == GatherLeaves(cat, kind, leaves[1..], Next(owner, acc, a))
  {
  }

  lemma {:induction false} GatherLeavesUses(cat: Catalog, kind: TargetKind, leaves: seq<LeafCore>, acc: seq<Pending>)
    requires Bound(OwnerIn(cat), acc) && GatherLeaves(cat, kind, leaves, acc).Ok?
    ensures var out := GatherLeaves(cat, kind, leaves, acc).value;
            AddressesIn(out) == SeenAfter(AddressesIn(acc), AddressList(leaves)) && Bound(OwnerIn(cat), out)
    decreases |leaves|
  {
    if leaves != [] {
      var next := Next(OwnerIn(cat), acc, leaves[0].address);
      GatherStep(cat, kind, leaves, acc);
      NextUses(OwnerIn(cat), acc, leaves[0].address);
      GatherLeavesUses(cat, kind, leaves[1..], next);
      assert AddressList(leaves)[1..] == AddressList(leaves[1..]);
    }
  }

  lemma {:induction false} GatherUses<V>(cat: Catalog, kind: TargetKind, exprs: seq<Core<V>>, acc: seq<Pending>)
    requires Bound(OwnerIn(cat), acc) && Gather(cat, kind, exprs, acc).Ok?
    ensures var out := Gather(cat, kind, exprs, acc).value;
            AddressesIn(out) == SeenAfter(AddressesIn(acc), Walked(exprs)) && Bound(OwnerIn(cat), out)
    decreases |exprs|
  {
    if exprs != [] {
      var leaves := exprs[0].leaves;
      GatherLeavesUses(cat, kind, leaves, acc);
      GatherUses(cat, kind, exprs[1..], GatherLeaves(cat, kind, leaves, acc).value);
      SeenAfterBoth(AddressesIn(acc), AddressList(leaves), Walked(exprs[1..]));
    }
  }

  // ----- the windows -----

  lemma {:induction false} MineIsOwned(owner: Owner, pending: seq<Pending>, provider: nat)
    requires Bound(owner, pending)
    ensures AddressesIn(Mine(pending, provider)) == OwnedBy(owner, AddressesIn(pending), provider)
    decreases |pending|
  {
    if pending != [] {
      var front, last := pending[..|pending| - 1], pending[|pending| - 1];
      assert AddressesIn(pending)[..|pending| - 1] == AddressesIn(front);
      MineIsOwned(owner, front, provider);
      AddressesInMore(Mine(front, provider), last);
    }
  }

  /** The providers below `upTo` with a share of what is pending. */
  function Shares(pending: seq<Pending>, upTo: nat): nat {
    if upTo == 0 then 0 else Shares(pending, upTo - 1) + (if Mine(pending, upTo - 1) != [] then 1 else 0)
  }

  /** A group stands for its provider: its place counts the providers with a share before it. */
  ghost predicate GroupStands(pending: seq<Pending>, group: ReadGroup, g: nat, total: nat, upTo: nat) {
    && group.provider < upTo && Mine(pending, group.provider) != []
    && g == Shares(pending, group.provider) && group.disclosureSlot == total + g
  }

  lemma {:induction false} GroupsCount(pending: seq<Pending>, upTo: nat, total: nat)
    ensures |GroupsOf(pending, upTo, total)| == Shares(pending, upTo)
  {
    if upTo > 0 { GroupsCount(pending, upTo - 1, total); }
  }

  lemma {:induction false} GroupAt(pending: seq<Pending>, upTo: nat, total: nat, g: nat)
    requires g < |GroupsOf(pending, upTo, total)|
    ensures GroupStands(pending, GroupsOf(pending, upTo, total)[g], g, total, upTo)
  {
    GroupsCount(pending, upTo - 1, total);
    if g < |GroupsOf(pending, upTo - 1, total)| { GroupAt(pending, upTo - 1, total, g); }
  }

  /** A provider with a share has its group. */
  lemma {:induction false} ShareHasGroup(pending: seq<Pending>, p: nat, upTo: nat, total: nat)
    requires p < upTo && Mine(pending, p) != []
    ensures Shares(pending, p) < |GroupsOf(pending, upTo, total)|
    ensures GroupsOf(pending, upTo, total)[Shares(pending, p)].provider == p
    decreases upTo
  {
    if p < upTo - 1 {
      ShareHasGroup(pending, p, upTo - 1, total);
    } else {
      GroupsCount(pending, p, total);
    }
  }

  lemma {:induction false} SharesAreBusy(owner: Owner, pending: seq<Pending>, upTo: nat)
    requires Bound(owner, pending)
    ensures Shares(pending, upTo) == Busy(owner, AddressesIn(pending), upTo)
  {
    if upTo > 0 {
      SharesAreBusy(owner, pending, upTo - 1);
      MineIsOwned(owner, pending, upTo - 1);
    }
  }

  lemma {:induction false} RefusedIs(plan: Plan, pending: seq<Pending>, opens: Opener, from: nat)
    requires from <= |plan.groups|
    ensures match Refused(plan, pending, opens, from)
            case None => forall g: nat | from <= g < |plan.groups| :: Accepts(plan, pending, opens, g)
            case Some(p) => exists g: nat :: from <= g < |plan.groups| && plan.groups[g].provider == p
                              && !Accepts(plan, pending, opens, g)
                              && forall h: nat | from <= h < g :: Accepts(plan, pending, opens, h)
    decreases |plan.groups| - from
  {
    if from < |plan.groups| {
      RefusedIs(plan, pending, opens, from + 1);
      if Accepts(plan, pending, opens, from) {
        var rest := Refused(plan, pending, opens, from + 1);
        if rest.Some? {
          var g: nat :| from + 1 <= g < |plan.groups| && plan.groups[g].provider == rest.value
                        && !Accepts(plan, pending, opens, g)
                        && forall h: nat | from + 1 <= h < g :: Accepts(plan, pending, opens, h);
          assert forall h: nat | from <= h < g :: Accepts(plan, pending, opens, h);
        }
      } else {
        assert plan.groups[from].provider == plan.groups[from].provider;
      }
    }
  }

  predicate Accepts(plan: Plan, pending: seq<Pending>, opens: Opener, g: nat) {
    g < |plan.groups| &&
    opens(plan.groups[g].provider, AddressesIn(Mine(pending, plan.groups[g].provider)), plan.groups[g].disclosureSlot)
  }

  /** A provider's share of what is pending is what it owns of what is used. */
  ghost predicate ShareOk(owner: Owner, pending: seq<Pending>, uses: seq<string>, p: nat) {
    && |uses| == |pending| && OwnedBy(owner, uses, p) == AddressesIn(Mine(pending, p))
    && Busy(owner, uses, p) == Shares(pending, p)
  }

  lemma ShareIsOk(owner: Owner, pending: seq<Pending>, p: nat)
    requires Bound(owner, pending)
    ensures ShareOk(owner, pending, AddressesIn(pending), p)
  {
    MineIsOwned(owner, pending, p);
    SharesAreBusy(owner, pending, p);
  }

  lemma AcceptsIsOpens(owner: Owner, pending: seq<Pending>, uses: seq<string>, plan: Plan, providers: nat, opens: Opener, g: nat)
    requires plan.groups == GroupsOf(pending, providers, |pending|) && g < |plan.groups|
    requires ShareOk(owner, pending, uses, plan.groups[g].provider)
    ensures GroupStands(pending, plan.groups[g], g, |pending|, providers)
    ensures Accepts(plan, pending, opens, g) <==> Opens(owner, uses, opens, plan.groups[g].provider)
  {
    GroupAt(pending, providers, |pending|, g);
  }

  lemma {:induction false} SlotsCount(pending: seq<Pending>, upTo: nat)
    ensures |SlotsOf(pending, upTo)| == |SlotsOf([], upTo)| + Below(pending, upTo)
    decreases |pending|
  {
    if pending != [] {
      SlotsCount(pending[..|pending| - 1], upTo);
      SlotsOneMore(pending, upTo);
    }
  }

  /** The entries of the providers below `upTo`. */
  function Below(pending: seq<Pending>, upTo: nat): nat
    decreases |pending|
  {
    if pending == [] then 0
    else Below(pending[..|pending| - 1], upTo) + (if pending[|pending| - 1].provider < upTo then 1 else 0)
  }

  lemma {:induction false} SlotsOneMore(pending: seq<Pending>, upTo: nat)
    requires pending != []
    ensures |SlotsOf(pending, upTo)|
         == |SlotsOf(pending[..|pending| - 1], upTo)| + (if pending[|pending| - 1].provider < upTo then 1 else 0)
  {
    if upTo > 0 { SlotsOneMore(pending, upTo - 1); }
  }

  lemma {:induction false} NoSlots(upTo: nat)
    ensures SlotsOf([], upTo) == []
  {
    if upTo > 0 { NoSlots(upTo - 1); }
  }

  lemma {:induction false} AllBelow(pending: seq<Pending>, upTo: nat)
    requires forall p | p in pending :: p.provider < upTo
    ensures Below(pending, upTo) == |pending|
    decreases |pending|
  {
    if pending != [] {
      assert pending[|pending| - 1] in pending;
      AllBelow(pending[..|pending| - 1], upTo);
    }
  }

  lemma EverySlot(pending: seq<Pending>, providers: nat)
    requires forall p | p in pending :: p.provider < providers
    ensures |SlotsOf(pending, providers)| == |pending|
  {
    SlotsCount(pending, providers);
    NoSlots(providers);
    AllBelow(pending, providers);
  }

  // ----- the outcome -----

  /** The first provider whose window does not open. */
  ghost predicate FirstDeclines(owner: Owner, uses: seq<string>, opens: Opener, provider: nat) {
    !Opens(owner, uses, opens, provider) && forall q: nat | q < provider :: Opens(owner, uses, opens, q)
  }

  lemma ProviderOpens(owner: Owner, pending: seq<Pending>, uses: seq<string>, plan: Plan, providers: nat, opens: Opener, p: nat)
    requires plan.groups == GroupsOf(pending, providers, |pending|) && p < providers && ShareOk(owner, pending, uses, p)
    requires Mine(pending, p) != [] ==> Accepts(plan, pending, opens, Shares(pending, p))
    ensures Opens(owner, uses, opens, p)
  {
    if Mine(pending, p) != [] {
      ShareHasGroup(pending, p, providers, |pending|);
      AcceptsIsOpens(owner, pending, uses, plan, providers, opens, Shares(pending, p));
    }
  }

  lemma {:induction false} SharesGrow(pending: seq<Pending>, q: nat, p: nat)
    requires q < p && Mine(pending, q) != []
    ensures Shares(pending, q) < Shares(pending, p)
    decreases p
  {
    if q < p - 1 { SharesGrow(pending, q, p - 1); }
  }

  /** The windows of a laid-out plan open exactly when every provider's does, and the one
      that is refused is the first provider's that declines. */
  lemma WindowsOutcome(owner: Owner, pending: seq<Pending>, uses: seq<string>, plan: Plan, providers: nat, opens: Opener)
    requires plan.groups == GroupsOf(pending, providers, |pending|)
    requires forall p: nat :: ShareOk(owner, pending, uses, p)
    ensures match Refused(plan, pending, opens, 0)
            case None => forall p: nat | p < providers :: Opens(owner, uses, opens, p)
            case Some(p) => p < providers && FirstDeclines(owner, uses, opens, p)
  {
    RefusedIs(plan, pending, opens, 0);
    match Refused(plan, pending, opens, 0) {
      case None =>
        forall p: nat | p < providers ensures Opens(owner, uses, opens, p) {
          assert ShareOk(owner, pending, uses, p);
          if Mine(pending, p) != [] { ShareHasGroup(pending, p, providers, |pending|); }
          ProviderOpens(owner, pending, uses, plan, providers, opens, p);
        }
      case Some(provider) =>
        var g: nat :| g < |plan.groups| && plan.groups[g].provider == provider && !Accepts(plan, pending, opens, g)
                      && forall h: nat | h < g :: Accepts(plan, pending, opens, h);
        assert ShareOk(owner, pending, uses, provider);
        AcceptsIsOpens(owner, pending, uses, plan, providers, opens, g);
        forall q: nat | q < provider ensures Opens(owner, uses, opens, q) {
          assert ShareOk(owner, pending, uses, q);
          if Mine(pending, q) != [] { SharesGrow(pending, q, provider); }
          ProviderOpens(owner, pending, uses, plan, providers, opens, q);
        }
    }
  }

  /** What every compile answers. No expression is refused first; then the first expression
      that names no leaf or holds one that cannot be counted names the error; then the first
      provider that declines its window; else a plan comes back. */
  lemma EveryOutcome<V>(cat: Catalog, kind: TargetKind, exprs: seq<Core<V>>, opens: Opener)
    requires CatalogOk(cat)
    ensures var out, owner, uses := Compiled(cat, kind, exprs, opens), OwnerIn(cat), UsesOf(exprs);
            && (exprs == [] ==> out == Err(NoExpression))
            && (exprs != [] && !AllSound(cat, kind, exprs) ==>
                  out.Err? && exists e: nat :: FailsAt(cat, kind, exprs, e, out.error))
            && (exprs != [] && AllSound(cat, kind, exprs) ==>
                  && (out.Ok? ==> forall p: nat | p < cat.providers :: Opens(owner, uses, opens, p))
                  && (out.Err? ==> out.error.WindowRefused? && out.error.provider < cat.providers
                                   && FirstDeclines(owner, uses, opens, out.error.provider)))
  {
    if exprs != [] {
      GatherOutcome(cat, kind, exprs, []);
      var gathered := Gather(cat, kind, exprs, []);
      if gathered.Ok? {
        GatherUses(cat, kind, exprs, []);
        GatherOk(cat, kind, exprs, []);
        var pending := gathered.value;
        EverySlot(pending, cat.providers);
        forall p: nat ensures ShareOk(OwnerIn(cat), pending, UsesOf(exprs), p) { ShareIsOk(OwnerIn(cat), pending, p); }
        WindowsOutcome(OwnerIn(cat), pending, UsesOf(exprs), PlanOf(pending, cat.providers), cat.providers, opens);
      } else {
        var e: nat :| FailsAt(cat, kind, exprs, e, gathered.error);
        FailsInside(cat, kind, exprs, e, gathered.error);
        assert exprs[e] in exprs;
      }
    }
  }

  /** A plan comes back if and only if there is an expression, every expression names a leaf,
      every leaf can be counted, and every provider opens its window. */
  lemma PlanComesBackIff<V>(cat: Catalog, kind: TargetKind, exprs: seq<Core<V>>, opens: Opener)
    requires CatalogOk(cat)
    ensures Compiled(cat, kind, exprs, opens).Ok?
       <==> exprs != [] && AllSound(cat, kind, exprs)
            && forall p: nat | p < cat.providers :: Opens(OwnerIn(cat), UsesOf(exprs), opens, p)
  {
    EveryOutcome(cat, kind, exprs, opens);
  }

  /** What is read holds each used address once. */
  lemma UsesAre<V>(exprs: seq<Core<V>>, a: string)
    ensures a in UsesOf(exprs) <==> Uses(exprs, a)
    ensures forall i, j | 0 <= i < j < |UsesOf(exprs)| :: UsesOf(exprs)[i] != UsesOf(exprs)[j]
  {
    SeenAfterIs([], Walked(exprs), a);
    WalkedIs(exprs, a);
  }

  lemma {:induction false} SeenAfterIs(seen: seq<string>, walked: seq<string>, a: string)
    requires forall i, j | 0 <= i < j < |seen| :: seen[i] != seen[j]
    ensures a in SeenAfter(seen, walked) <==> a in seen || a in walked
    ensures forall i, j | 0 <= i < j < |SeenAfter(seen, walked)| :: SeenAfter(seen, walked)[i] != SeenAfter(seen, walked)[j]
    decreases |walked|
  {
    if walked != [] {
      assert walked == [walked[0]] + walked[1..];
      SeenAfterIs(if walked[0] in seen then seen else seen + [walked[0]], walked[1..], a);
    }
  }

  lemma {:induction false} WalkedIs<V>(exprs: seq<Core<V>>, a: string)
    ensures a in Walked(exprs) <==> Uses(exprs, a)
    decreases |exprs|
  {
    if exprs != [] {
      ListedIs(exprs[0].leaves, a);
      WalkedIs(exprs[1..], a);
      UsesSplit(exprs, a);
    }
  }

  lemma {:induction false} ListedIs(leaves: seq<LeafCore>, a: string)
    ensures a in AddressList(leaves) <==> a in AddressesOf(leaves)
    decreases |leaves|
  {
    if leaves != [] {
      assert leaves == [leaves[0]] + leaves[1..];
      ListedIs(leaves[1..], a);
    }
  }
}
