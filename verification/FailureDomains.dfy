/** Building the site's failure-domain forest from the attributed claims. */
module FailureDomains {
  import opened Model
  import opened Admission
  import opened Attribution
  import opened Forest
  import Order

  datatype Deficit = Deficit(code: Status, domain: MemberDomainKey)

  const NO_DOMAIN := MemberDomainKey(UnknownDomain, [])

  function AddDeficit(deficits: seq<Deficit>, d: Deficit): seq<Deficit> {
    if |deficits| >= MAX_DEFICITS then deficits else deficits + [d]
  }

  datatype SiteForest = SiteForest(
    nodes: seq<FailureDomainNode>, cyclic: set<Text>, dangling: set<Text>, status: Status)

  // ----- Members ------------------------------------------------------------

  function Elements<T>(s: seq<T>): set<T> { set x | x in s }

  function ClaimMembers(claims: seq<Claim>, id: Text): set<ResourceKey> {
    if claims == [] then {}
    else
      var c := claims[|claims| - 1];
      ClaimMembers(claims[..|claims| - 1], id)
      + (if c.FailureDomainClaim? && c.id == id then Elements(c.members) else {})
  }

  function DeclaredMembers(lists: seq<seq<Claim>>, id: Text): set<ResourceKey> {
    if lists == [] then {}
    else DeclaredMembers(lists[..|lists| - 1], id) + ClaimMembers(lists[|lists| - 1], id)
  }

  function MembersFrom(admissions: Admissions, source: SourceRef, id: Text): set<ResourceKey> {
    if source.domain in admissions && admissions[source.domain].record.declaration.Some? then
      DeclaredMembers(admissions[source.domain].record.declaration.value.lists, id)
    else {}
  }

  /** The union of the member lists of everyone who attests the domain. */
  function AttestedMembers(admissions: Admissions, attestations: seq<Attestation>, id: Text): set<ResourceKey> {
    if attestations == [] then {}
    else
      AttestedMembers(admissions, attestations[..|attestations| - 1], id)
      + MembersFrom(admissions, attestations[|attestations| - 1].source, id)
  }

  /** The first members in key order, as many as a domain may have. */
  function Bounded(members: set<ResourceKey>): (r: set<ResourceKey>)
    ensures r <= members
  {
    var order := KeyOrder(members);
    if |order| <= MAX_RESOURCE_MEMBERS then members
    else set i | 0 <= i < MAX_RESOURCE_MEMBERS :: order[i]
  }

  // ----- Nodes --------------------------------------------------------------

  function DomainKey(id: Text): ResourceKey { ResourceKey(FailureDomainKind, id) }

  function ParentOf(r: ResourceRecord): Option<Text> {
    if r.Has(6) && r.pointers[6].FailureDomainClaim? then r.pointers[6].parent else None
  }

  function ClassOf(r: ResourceRecord): FailureDomainClass {
    if r.Has(6) && r.pointers[6].FailureDomainClaim? then r.pointers[6].domainClass else UnknownClass
  }

  predicate Dangles(resources: Resources, r: ResourceRecord) {
    ParentOf(r).Some? && DomainKey(ParentOf(r).value) !in resources
  }

  /** The status of a node before ancestry: disagreement, then a parent nobody
      declares, then an unknown class, each overriding the one before. */
  function NodeStatus(resources: Resources, r: ResourceRecord, members: set<ResourceKey>): Status {
    if ClassOf(r) == UnknownClass then Status.FailureDomainConflict
    else if Dangles(resources, r) then Status.FailureDomainDanglingParent
    else if |members| > MAX_RESOURCE_MEMBERS then Status.LimitExceeded
    else if r.status == Status.Unknown then Status.Ok
    else if r.status == Status.OwnershipOverlap then Status.FailureDomainConflict
    else r.status
  }

  function NodeOf(admissions: Admissions, resources: Resources, key: ResourceKey): (n: FailureDomainNode)
    requires key in resources
    ensures n.id == key.id && n.parent == ParentOf(resources[key])
  {
    var r := resources[key];
    var members := AttestedMembers(admissions, r.attestations, key.id);
    FailureDomainNode(key.id, ClassOf(r), ParentOf(r), Bounded(members), [], [], 0, Attestors(r),
                      NodeStatus(resources, r, members))
  }

  function NodesOf(admissions: Admissions, resources: Resources, order: seq<ResourceKey>): seq<FailureDomainNode>
    requires forall k | k in order :: k in resources
  {
    if order == [] then []
    else
      var front, k := order[..|order| - 1], order[|order| - 1];
      assert order == front + [k];
      var before := NodesOf(admissions, resources, front);
      if k.kind == FailureDomainKind then before + [NodeOf(admissions, resources, k)] else before
  }

  /** One node for each declared failure domain. */
  lemma {:induction false} NodeIds(admissions: Admissions, resources: Resources, order: seq<ResourceKey>, id: Text)
    requires forall k | k in order :: k in resources
    ensures (exists i :: 0 <= i < |NodesOf(admissions, resources, order)| && NodesOf(admissions, resources, order)[i].id == id)
      <==> DomainKey(id) in order
  {
    hide NodeOf;
    if order != [] {
      var front, k := order[..|order| - 1], order[|order| - 1];
      assert order == front + [k];
      NodeIds(admissions, resources, front, id);
      var before := NodesOf(admissions, resources, front);
      var nodes := NodesOf(admissions, resources, order);
      if k == DomainKey(id) { assert nodes[|before|].id == id; }
      if i :| 0 <= i < |before| && before[i].id == id { assert nodes[i].id == id; }
    }
  }

  lemma {:induction false} NodesAreDistinct(admissions: Admissions, resources: Resources, order: seq<ResourceKey>)
    requires forall k | k in order :: k in resources
    requires Order.StrictlySorted(order, Order.ResourceText)
    ensures DistinctIds(NodesOf(admissions, resources, order))
  {
    hide NodeOf;
    if order != [] {
      var front, k := order[..|order| - 1], order[|order| - 1];
      assert order == front + [k];
      NodesAreDistinct(admissions, resources, front);
      var before := NodesOf(admissions, resources, front);
      if k.kind == FailureDomainKind {
        Order.SortedHasNoRepeats(order, Order.ResourceText);
        forall i | 0 <= i < |before| ensures before[i].id != k.id {
          NodeIds(admissions, resources, front, before[i].id);
        }
      }
    }
  }

  lemma {:induction false} NodeAt(admissions: Admissions, resources: Resources, order: seq<ResourceKey>,
      n: FailureDomainNode)
    requires forall k | k in order :: k in resources
    requires n in NodesOf(admissions, resources, order)
    ensures DomainKey(n.id) in order && n == NodeOf(admissions, resources, DomainKey(n.id))
  {
    hide NodeOf;
    if order != [] {
      var front, k := order[..|order| - 1], order[|order| - 1];
      assert order == front + [k];
      if n in NodesOf(admissions, resources, front) {
        NodeAt(admissions, resources, front, n);
      }
    }
  }

  // ----- The forest ---------------------------------------------------------

  predicate SomeNode(nodes: seq<FailureDomainNode>, status: Status) {
    exists i | 0 <= i < |nodes| :: nodes[i].status == status
  }

  function ForestStatus(nodes: seq<FailureDomainNode>, cyclic: set<Text>, dangling: set<Text>): Status {
    if cyclic != {} then Status.FailureDomainCycle
    else if dangling != {} then Status.FailureDomainDanglingParent
    else if SomeNode(nodes, Status.FailureDomainConflict) then Status.FailureDomainConflict
    else if SomeNode(nodes, Status.NoAuthoritativeSource) then Status.NoAuthoritativeSource
    else Status.Ok
  }

  function DanglingIn(resources: Resources, order: seq<ResourceKey>): set<Text>
    requires forall k | k in order :: k in resources
  {
    if order == [] then {}
    else
      var front, k := order[..|order| - 1], order[|order| - 1];
      assert order == front + [k];
      DanglingIn(resources, front)
      + (if k.kind == FailureDomainKind && Dangles(resources, resources[k]) then {k.id} else {})
  }

  lemma {:induction false} DanglingAt(resources: Resources, order: seq<ResourceKey>, id: Text)
    requires forall k | k in order :: k in resources
    ensures id in DanglingIn(resources, order) <==> DomainKey(id) in order && Dangles(resources, resources[DomainKey(id)])
  {
    hide Dangles;
    if order != [] {
      var front, k := order[..|order| - 1], order[|order| - 1];
      assert order == front + [k];
      DanglingAt(resources, front, id);
    }
  }

  /** One deficit for every domain whose parent nobody declares. */
  function DanglingDeficits(resources: Resources, order: seq<ResourceKey>): seq<Deficit>
    requires forall k | k in order :: k in resources
  {
    if order == [] then []
    else
      var front, k := order[..|order| - 1], order[|order| - 1];
      assert order == front + [k];
      var before := DanglingDeficits(resources, front);
      if k.kind == FailureDomainKind && Dangles(resources, resources[k]) then
        AddDeficit(before, Deficit(Status.FailureDomainDanglingParent, NO_DOMAIN))
      else before
  }

  function ForestFrom(nodes: seq<FailureDomainNode>, dangling: set<Text>): SiteForest {
    var p := Parents(nodes);
    var resolved := Resolved(p, nodes);
    SiteForest(resolved, CyclicIds(p), dangling, ForestStatus(resolved, CyclicIds(p), dangling))
  }

  function ForestOf(admissions: Admissions, resources: Resources): SiteForest {
    var order := KeyOrder(resources.Keys);
    ForestFrom(NodesOf(admissions, resources, order), DanglingIn(resources, order))
  }

  function NodeConflicts(before: seq<Conflict>, nodes: seq<FailureDomainNode>, resources: Resources): (r: seq<Conflict>)
    ensures before <= r
    ensures r == [] <==> before == [] && forall n | n in nodes :: n.status == Status.FailureDomainConflict ==> DomainKey(n.id) !in resources
  {
    if nodes == [] then before
    else
      var front, n := nodes[..|nodes| - 1], nodes[|nodes| - 1];
      assert nodes == front + [n];
      var c := NodeConflicts(before, front, resources);
      if n.status == Status.FailureDomainConflict && DomainKey(n.id) in resources then
        AddConflict(c, Conflict(Status.FailureDomainConflict, DomainKey(n.id), Attestors(resources[DomainKey(n.id)])))
      else c
  }

  function ForestConflicts(before: seq<Conflict>, forest: SiteForest, resources: Resources): (r: seq<Conflict>)
    ensures before <= r
    ensures r == [] ==> forest.cyclic == {}
  {
    NodeConflicts(
      if forest.cyclic != {} then AddConflict(before, Conflict(Status.FailureDomainCycle, NO_SUBJECT, {})) else before,
      forest.nodes, resources)
  }

  /** A forest without conflicts whose status is neither that of a dangling
      parent nor of a missing source has no cycle, no dangling parent, and no
      disputed or unclassified node. */
  lemma QuietForest(admissions: Admissions, resources: Resources, before: seq<Conflict>)
    requires var f := ForestOf(admissions, resources);
             && ForestConflicts(before, f, resources) == []
             && f.status != Status.FailureDomainDanglingParent && f.status != Status.NoAuthoritativeSource
    ensures var f := ForestOf(admissions, resources);
            && f.status == Status.Ok && f.cyclic == {} && f.dangling == {} && before == []
            && (forall n | n in f.nodes :: n.parent.Some? ==> DomainKey(n.parent.value) in resources)
            && (forall n | n in f.nodes :: n.status != Status.FailureDomainConflict && n.status != Status.NoAuthoritativeSource)
  {
    var f := ForestOf(admissions, resources);
    hide ForestOf, NodeConflicts, ParentOf;
    ForestStatusIs(admissions, resources);
    forall n | n in f.nodes
      ensures DomainKey(n.id) in resources && (n.parent.Some? ==> DomainKey(n.parent.value) in resources || n.id in f.dangling)
    {
      NodeDeclared(admissions, resources, n);
    }
    forall n | n in f.nodes ensures SomeNode(f.nodes, n.status) { NodeStatusOccurs(f.nodes, n); }
    hide SomeNode;
  }

  lemma NodeStatusOccurs(nodes: seq<FailureDomainNode>, n: FailureDomainNode)
    requires n in nodes
    ensures SomeNode(nodes, n.status)
  {
    var i :| 0 <= i < |nodes| && nodes[i] == n;
  }

  lemma ForestStatusIs(admissions: Admissions, resources: Resources)
    ensures var f := ForestOf(admissions, resources); f.status == ForestStatus(f.nodes, f.cyclic, f.dangling)
  {
  }

  /** Every node is a declared failure domain, and its parent is declared too
      unless the node is reported as dangling. */
  lemma NodeDeclared(admissions: Admissions, resources: Resources, n: FailureDomainNode)
    requires n in ForestOf(admissions, resources).nodes
    ensures DomainKey(n.id) in resources
    ensures n.parent == ParentOf(resources[DomainKey(n.id)])
    ensures n.parent.Some? ==> DomainKey(n.parent.value) in resources || n.id in ForestOf(admissions, resources).dangling
  {
    var order := KeyOrder(resources.Keys);
    var nodes := NodesOf(admissions, resources, order);
    hide NodesOf, Parents, CyclicIds, ForestStatus, DanglingIn, ForestFrom, ParentOf;
    assert ForestOf(admissions, resources) == ForestFrom(nodes, DanglingIn(resources, order));
    ResolvedAt(nodes, DanglingIn(resources, order));
    var f := ForestOf(admissions, resources);
    var i :| 0 <= i < |f.nodes| && f.nodes[i] == n;
    NodeAt(admissions, resources, order, nodes[i]);
    DanglingAt(resources, order, n.id);
  }

  lemma ResolvedAt(nodes: seq<FailureDomainNode>, dangling: set<Text>)
    ensures var f := ForestFrom(nodes, dangling);
            && |f.nodes| == |nodes| && f.dangling == dangling
            && f.status == ForestStatus(f.nodes, f.cyclic, f.dangling)
            && forall i | 0 <= i < |nodes| ::
                 f.nodes[i].id == nodes[i].id && f.nodes[i].parent == nodes[i].parent && f.nodes[i].members == nodes[i].members
  {
  }

  // ----- The loops ----------------------------------------------------------

  method CollectMembers(admissions: Admissions, attestations: seq<Attestation>, id: Text)
      returns (members: set<ResourceKey>)
    ensures members == AttestedMembers(admissions, attestations, id)
  {
    members := {};
    for i := 0 to |attestations|
      invariant members == AttestedMembers(admissions, attestations[..i], id)
    {
      assert attestations[..i + 1][..i] == attestations[..i];
      var domain := attestations[i].source.domain;
      if domain !in admissions || admissions[domain].record.declaration.None? { continue; }
      var more := CollectDeclared(admissions[domain].record.declaration.value.lists, id);
      members := members + more;
    }
    assert attestations[..|attestations|] == attestations;
  }

  method CollectDeclared(lists: seq<seq<Claim>>, id: Text) returns (members: set<ResourceKey>)
    ensures members == DeclaredMembers(lists, id)
  {
    members := {};
    for i := 0 to |lists|
      invariant members == DeclaredMembers(lists[..i], id)
    {
      assert lists[..i + 1][..i] == lists[..i];
      ghost var before := members;
      var claims := lists[i];
      for j := 0 to |claims|
        invariant members == before + ClaimMembers(claims[..j], id)
      {
        assert claims[..j + 1][..j] == claims[..j];
        if !claims[j].FailureDomainClaim? || claims[j].id != id { continue; }
        members := members + Elements(claims[j].members);
      }
      assert claims[..|claims|] == claims;
    }
    assert lists[..|lists|] == lists;
  }

  /** One node with its members and its status before ancestry. */
  method BuildNode(admissions: Admissions, resources: Resources, key: ResourceKey)
      returns (node: FailureDomainNode, dangles: bool)
    requires key in resources
    ensures node == NodeOf(admissions, resources, key)
    ensures dangles <==> Dangles(resources, resources[key])
  {
    var r := resources[key];
    var members := CollectMembers(admissions, r.attestations, key.id);
    hide AttestedMembers, Bounded;
    var status := r.status;
    var kept := Bounded(members);
    if |members| > MAX_RESOURCE_MEMBERS { status := Status.LimitExceeded; }
    if status == Status.Unknown { status := Status.Ok; }
    else if status == Status.OwnershipOverlap { status := Status.FailureDomainConflict; }
    dangles := false;
    var parent := ParentOf(r);
    if parent.Some? && DomainKey(parent.value) !in resources {
      status := Status.FailureDomainDanglingParent;
      dangles := true;
    }
    var domainClass := ClassOf(r);
    if domainClass == UnknownClass { status := Status.FailureDomainConflict; }
    node := FailureDomainNode(key.id, domainClass, parent, kept, [], [], 0, Attestors(r), status);
  }

  method CollectNodes(admissions: Admissions, resources: Resources)
      returns (nodes: seq<FailureDomainNode>, dangling: set<Text>, deficits: seq<Deficit>)
    ensures var order := KeyOrder(resources.Keys);
            && nodes == NodesOf(admissions, resources, order)
            && dangling == DanglingIn(resources, order) && deficits == DanglingDeficits(resources, order)
  {
    hide *;
    var order := KeyOrder(resources.Keys);
    nodes, dangling, deficits := [], {}, [];
    NothingCollected(admissions, resources);
    for i := 0 to |order|
      invariant forall k | k in order[..i] :: k in resources
      invariant nodes == NodesOf(admissions, resources, order[..i])
      invariant dangling == DanglingIn(resources, order[..i])
      invariant deficits == DanglingDeficits(resources, order[..i])
    {
      CollectStep(admissions, resources, order, i);
      if order[i].kind != FailureDomainKind { continue; }
      var node, dangles := BuildNode(admissions, resources, order[i]);
      if dangles {
        dangling := dangling + {order[i].id};
        deficits := AddDeficit(deficits, Deficit(Status.FailureDomainDanglingParent, NO_DOMAIN));
      }
      nodes := nodes + [node];
    }
    assert order[..|order|] == order;
  }

  lemma NothingCollected(admissions: Admissions, resources: Resources)
    ensures NodesOf(admissions, resources, []) == [] && DanglingIn(resources, []) == {} && DanglingDeficits(resources, []) == []
  {
  }

  lemma CollectStep(admissions: Admissions, resources: Resources, order: seq<ResourceKey>, i: nat)
    requires i < |order| && forall k | k in order :: k in resources
    ensures order[i] in resources && forall k | k in order[..i + 1] :: k in resources
    ensures var front, k := order[..i], order[i];
            var isDomain := k.kind == FailureDomainKind;
            var dangles := isDomain && Dangles(resources, resources[k]);
            && NodesOf(admissions, resources, order[..i + 1])
                 == NodesOf(admissions, resources, front) + (if isDomain then [NodeOf(admissions, resources, k)] else [])
            && DanglingIn(resources, order[..i + 1]) == DanglingIn(resources, front) + (if dangles then {k.id} else {})
            && DanglingDeficits(resources, order[..i + 1])
                 == (if dangles then AddDeficit(DanglingDeficits(resources, front), Deficit(Status.FailureDomainDanglingParent, NO_DOMAIN))
                     else DanglingDeficits(resources, front))
  {
    hide NodeOf, Dangles, AddDeficit;
    assert order[i] in order;
    assert order[..i + 1][..i] == order[..i];
  }

  method StatusOfForest(nodes: seq<FailureDomainNode>, cyclic: set<Text>, dangling: set<Text>) returns (status: Status)
    ensures status == ForestStatus(nodes, cyclic, dangling)
  {
    if cyclic != {} { return Status.FailureDomainCycle; }
    if dangling != {} { return Status.FailureDomainDanglingParent; }
    var anyConflict, anyUnsourced := false, false;
    for i := 0 to |nodes|
      invariant anyConflict <==> exists k | 0 <= k < i :: nodes[k].status == Status.FailureDomainConflict
      invariant anyUnsourced <==> exists k | 0 <= k < i :: nodes[k].status == Status.NoAuthoritativeSource
    {
      if nodes[i].status == Status.FailureDomainConflict { anyConflict := true; }
      else if nodes[i].status == Status.NoAuthoritativeSource { anyUnsourced := true; }
    }
    if anyConflict { return Status.FailureDomainConflict; }
    if anyUnsourced { return Status.NoAuthoritativeSource; }
    return Status.Ok;
  }

  method AddNodeConflicts(before: seq<Conflict>, nodes: seq<FailureDomainNode>, resources: Resources)
      returns (conflicts: seq<Conflict>)
    ensures conflicts == NodeConflicts(before, nodes, resources)
  {
    conflicts := before;
    for i := 0 to |nodes|
      invariant conflicts == NodeConflicts(before, nodes[..i], resources)
    {
      assert nodes[..i + 1][..i] == nodes[..i];
      var key := DomainKey(nodes[i].id);
      if nodes[i].status == Status.FailureDomainConflict && key in resources {
        conflicts := AddConflict(conflicts, Conflict(Status.FailureDomainConflict, key, Attestors(resources[key])));
      }
    }
    assert nodes[..|nodes|] == nodes;
  }

  method BuildFailureDomains(admissions: Admissions, resources: Resources, before: seq<Conflict>)
      returns (forest: SiteForest, conflicts: seq<Conflict>, deficits: seq<Deficit>)
    ensures forest == ForestOf(admissions, resources)
    ensures conflicts == ForestConflicts(before, forest, resources)
    ensures deficits == DanglingDeficits(resources, KeyOrder(resources.Keys))
  {
    hide NodesOf, DanglingIn, DanglingDeficits, Parents, Resolved, CyclicIds, ForestStatus, NodeConflicts, DistinctIds;
    var nodes, dangling, missing := CollectNodes(admissions, resources);
    deficits := missing;
    NodesAreDistinct(admissions, resources, KeyOrder(resources.Keys));
    var work := new FailureDomainForest();
    work.nodes, work.dangling := nodes, dangling;
    work.ResolveAncestry();
    work.status := StatusOfForest(work.nodes, work.cyclic, work.dangling);
    forest := SiteForest(work.nodes, work.cyclic, work.dangling, work.status);
    conflicts := before;
    if work.cyclic != {} { conflicts := AddConflict(conflicts, Conflict(Status.FailureDomainCycle, NO_SUBJECT, {})); }
    conflicts := AddNodeConflicts(conflicts, work.nodes, resources);
  }
}
