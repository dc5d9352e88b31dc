/** `compileCore` as the source runs it: vectors and maps grown in loops, then one window
    opened per group. The whole of it equals `Layout.Compiled`. */
module Compile {
  import opened Common
  import opened Spine
  import opened Layout

  /** The leaves of one expression, skipping the addresses already seen. */
  method GatherFrom(cat: Catalog, kind: TargetKind, leaves: seq<LeafCore>, acc: seq<Pending>, known: map<string, nat>)
    returns (r: Result<seq<Pending>, CompileError>, seen: map<string, nat>)
    requires forall a :: a in known <==> Seen(acc, a)
    ensures r == GatherLeaves(cat, kind, leaves, acc)
    ensures r.Ok? ==> forall a :: a in seen <==> Seen(r.value, a)
  {
    var pending := acc;
    seen := known;
    var i := 0;
    while i < |leaves|
      invariant 0 <= i <= |leaves|
      invariant GatherLeaves(cat, kind, leaves, acc) == GatherLeaves(cat, kind, leaves[i..], pending)
      invariant forall a :: a in seen <==> Seen(pending, a)
    {
      var address := leaves[i].address;
      assert leaves[i..][1..] == leaves[i + 1..];
      if address !in seen {
        match Lookup(cat, address) {
          case None => return Err(UnknownLeaf(address)), seen;
          case Some(record) =>
            if !GatePasses(record.avail, kind) {
              return Err(NotCountable(address, record.avail)), seen;
            }
            ghost var before := pending;
            seen := seen[address := |pending|];
            pending := pending + [Pending(address, record.provider)];
        }
      }
      i := i + 1;
    }
    r := Ok(pending);
  }

  /** The first loop: every leaf of every expression, each address once. */
  method GatherAll<V>(cat: Catalog, kind: TargetKind, exprs: seq<Core<V>>)
    returns (r: Result<seq<Pending>, CompileError>)
    ensures r == Gather(cat, kind, exprs, [])
  {
    var pending: seq<Pending> := [];
    var seen: map<string, nat> := map[];
    var e := 0;
    while e < |exprs|
      invariant 0 <= e <= |exprs|
      invariant Gather(cat, kind, exprs, []) == Gather(cat, kind, exprs[e..], pending)
      invariant forall a :: a in seen <==> Seen(pending, a)
    {
      assert exprs[e..][1..] == exprs[e + 1..];
      if exprs[e].leaves == [] {
        return Err(NoLeaves);
      }
      var next, nowSeen := GatherFrom(cat, kind, exprs[e].leaves, pending, seen);
      match next {
        case Err(error) => return Err(error);
        case Ok(value) => pending, seen := value, nowSeen;
      }
      e := e + 1;
    }
    r := Ok(pending);
  }

  /** One provider's share: its addresses, its slots behind the earlier ones, and their
      places in the address map. */
  method PlaceProvider(pending: seq<Pending>, provider: nat, earlier: seq<Pending>, index: map<string, nat>)
    returns (slots: seq<Pending>, byAddress: map<string, nat>)
    requires index == Indexed(earlier)
    ensures slots == earlier + Mine(pending, provider) && byAddress == Indexed(slots)
  {
    slots, byAddress := earlier, index;
    var k := 0;
    while k < |pending|
      invariant 0 <= k <= |pending|
      invariant slots == earlier + Mine(pending[..k], provider) && byAddress == Indexed(slots)
    {
      MineNext(pending, k, provider);
      IndexedNext(slots, pending[k]);
      if pending[k].provider == provider {
        slots := slots + [pending[k]];
        if pending[k].address !in byAddress {
          byAddress := byAddress[pending[k].address := |slots| - 1];
        }
      }
      k := k + 1;
    }
    assert pending[..k] == pending;
  }

  lemma MineNext(pending: seq<Pending>, k: nat, provider: nat)
    requires k < |pending|
    ensures Mine(pending[..k + 1], provider)
         == Mine(pending[..k], provider) + (if pending[k].provider == provider then [pending[k]] else [])
  {
    assert pending[..k + 1][..k] == pending[..k];
  }

  lemma IndexedNext(slots: seq<Pending>, p: Pending)
    ensures Indexed(slots + [p]) == if p.address in Indexed(slots) then Indexed(slots) else Indexed(slots)[p.address := |slots|]
  {
    assert (slots + [p])[..|slots|] == slots;
  }

  lemma {:induction false} TotalOnlyMovesDisclosure(pending: seq<Pending>, upTo: nat, total: nat)
    ensures |GroupsOf(pending, upTo, total)| == |GroupsOf(pending, upTo, 0)|
    ensures forall g: nat | g < |GroupsOf(pending, upTo, 0)| ::
              GroupsOf(pending, upTo, total)[g] == GroupsOf(pending, upTo, 0)[g].(disclosureSlot := total + g)
  {
    if upTo > 0 { TotalOnlyMovesDisclosure(pending, upTo - 1, total); }
  }

  /** The two passes that lay a plan out: slots and groups, then the disclosure columns
      behind every slot. */
  method LayOut(pending: seq<Pending>, providers: nat) returns (plan: Plan)
    ensures plan == PlanOf(pending, providers)
  {
    var slots: seq<Pending>, byAddress: map<string, nat>, groups: seq<ReadGroup> := [], map[], [];
    var p := 0;
    while p < providers
      invariant 0 <= p <= providers
      invariant slots == SlotsOf(pending, p) && byAddress == Indexed(slots)
      invariant |groups| == |GroupsOf(pending, p, 0)|
      invariant forall g: nat | g < |groups| :: groups[g] == GroupsOf(pending, p, 0)[g].(disclosureSlot := 0)
    {
      var nextSlots, nextIndex := PlaceProvider(pending, p, slots, byAddress);
      if |nextSlots| > |slots| {
        groups := groups + [ReadGroup(p, |slots|, |nextSlots| - |slots|, 0)];
      }
      slots, byAddress := nextSlots, nextIndex;
      p := p + 1;
    }
    TotalOnlyMovesDisclosure(pending, p, |slots|);
    var i := 0;
    while i < |groups|
      invariant 0 <= i <= |groups| == |GroupsOf(pending, p, 0)|
      invariant forall g: nat | g < |groups| ::
                  groups[g] == GroupsOf(pending, p, 0)[g].(disclosureSlot := if g < i then |slots| + g else 0)
    {
      groups := groups[i := groups[i].(disclosureSlot := |slots| + i)];
      i := i + 1;
    }
    assert groups == GroupsOf(pending, p, |slots|);
    plan := Plan(slots, byAddress, groups);
  }

  method CompileCore<V>(cat: Catalog, kind: TargetKind, exprs: seq<Core<V>>, opens: Opener)
    returns (r: Result<Plan, CompileError>)
    ensures r == Compiled(cat, kind, exprs, opens)
  {
    if exprs == [] {
      return Err(NoExpression);
    }
    var gathered := GatherAll(cat, kind, exprs);
    match gathered {
      case Err(error) => return Err(error);
      case Ok(pending) =>
        var plan := LayOut(pending, cat.providers);
        var g := 0;
        while g < |plan.groups|
          invariant 0 <= g <= |plan.groups|
          invariant Refused(plan, pending, opens, 0) == Refused(plan, pending, opens, g)
        {
          var group := plan.groups[g];
          if !opens(group.provider, AddressesIn(Mine(pending, group.provider)), group.disclosureSlot) {
            return Err(WindowRefused(group.provider));
          }
          g := g + 1;
        }
        r := Ok(plan);
    }
  }
}
