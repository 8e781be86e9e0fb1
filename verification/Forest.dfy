/** The failure-domain forest: ancestry by following parents with a cycle test
    and a depth cut-off, and separateness of two resources. */
module Forest {
  import opened Model
  import opened Order

  datatype FailureDomainNode = FailureDomainNode(
    id: Text, domainClass: FailureDomainClass, parent: Option<Text>, members: set<ResourceKey>,
    children: seq<Text>, ancestors: seq<Text>, depth: nat, attestors: set<SourceRef>, status: Status)

  ghost predicate DistinctIds(nodes: seq<FailureDomainNode>) {
    forall i, j | 0 <= i < j < |nodes| :: nodes[i].id != nodes[j].id
  }

  // ----- Parent links -------------------------------------------------------

  /** Every declared domain with the parent it names. */
  type ParentMap = map<Text, Option<Text>>

  function Parents(nodes: seq<FailureDomainNode>): ParentMap {
    if nodes == [] then map[]
    else Parents(nodes[..|nodes| - 1])[nodes[|nodes| - 1].id := nodes[|nodes| - 1].parent]
  }

  lemma {:induction false} ParentsAt(nodes: seq<FailureDomainNode>)
    requires DistinctIds(nodes)
    ensures forall i | 0 <= i < |nodes| :: nodes[i].id in Parents(nodes) && Parents(nodes)[nodes[i].id] == nodes[i].parent
    ensures forall id :: id in Parents(nodes) <==> exists i | 0 <= i < |nodes| :: nodes[i].id == id
  {
    if nodes != [] {
      ParentsAt(nodes[..|nodes| - 1]);
    }
  }

  /** The domain `k` parent links above `x`. */
  function Up(p: ParentMap, x: Text, k: nat): Option<Text> {
    if k == 0 then Some(x)
    else
      var below := Up(p, x, k - 1);
      if below.Some? && below.value in p then p[below.value] else None
  }

  lemma {:induction false} UpAdds(p: ParentMap, x: Text, j: nat, k: nat)
    ensures Up(p, x, j + k) == if Up(p, x, j).Some? then Up(p, Up(p, x, j).value, k) else None
  {
    if k > 0 { UpAdds(p, x, j, k - 1); }
  }

  lemma UpDefinedBelow(p: ParentMap, x: Text, j: nat, k: nat)
    requires j <= k && Up(p, x, k).Some?
    ensures Up(p, x, j).Some?
  {
    UpAdds(p, x, j, k - j);
  }

  /** A chain that meets a domain twice never ends. */
  lemma {:induction false} RepeatNeverEnds(p: ParentMap, x: Text, i: nat, j: nat, n: nat)
    requires i < j && Up(p, x, i).Some? && Up(p, x, i) == Up(p, x, j)
    ensures Up(p, x, n).Some?
    decreases n
  {
    if n <= j {
      UpDefinedBelow(p, x, n, j);
    } else {
      RepeatNeverEnds(p, x, i, j, n - (j - i));
      UpAdds(p, x, i, n - j);
      UpAdds(p, x, j, n - j);
    }
  }

  // ----- What ancestry means ------------------------------------------------

  ghost predicate Repeats(p: ParentMap, x: Text) {
    exists i: nat, j: nat :: i < j && Up(p, x, i).Some? && Up(p, x, i) == Up(p, x, j)
  }

  /** More links above `x` than the cut-off allows. */
  predicate BeyondCutOff(p: ParentMap, x: Text) { Up(p, x, MAX_FAILURE_DOMAIN_DEPTH + 1).Some? }

  predicate MarkedCyclic(p: ParentMap, x: Text) { BeyondCutOff(p, x) }

  /** A domain is marked cyclic exactly when its chain of parents repeats a
      domain or is longer than the cut-off. */
  lemma MarkedCyclicIff(p: ParentMap, x: Text)
    ensures MarkedCyclic(p, x) <==> Repeats(p, x) || BeyondCutOff(p, x)
  {
    if Repeats(p, x) {
      var i: nat, j: nat :| i < j && Up(p, x, i).Some? && Up(p, x, i) == Up(p, x, j);
      RepeatNeverEnds(p, x, i, j, MAX_FAILURE_DOMAIN_DEPTH + 1);
    }
  }

  /** The declared domains above `x`, nearest first, at most `limit` of them. */
  function Climb(p: ParentMap, x: Text, limit: nat): seq<Text>
    decreases limit
  {
    if limit == 0 || x !in p || p[x].None? || p[x].value !in p then []
    else [p[x].value] + Climb(p, p[x].value, limit - 1)
  }

  function AncestorsOf(p: ParentMap, x: Text): seq<Text> {
    if MarkedCyclic(p, x) then [] else Climb(p, x, MAX_FAILURE_DOMAIN_DEPTH)
  }

  function ChildrenOf(p: ParentMap, x: Text): set<Text> { set c | c in p && p[c] == Some(x) }

  lemma {:induction false} ClimbIsUp(p: ParentMap, x: Text, limit: nat, k: nat)
    requires k < |Climb(p, x, limit)|
    ensures Up(p, x, k + 1) == Some(Climb(p, x, limit)[k]) && Climb(p, x, limit)[k] in p
    ensures |Climb(p, x, limit)| <= limit
    decreases limit
  {
    UpAdds(p, x, 1, k);
    assert Up(p, x, 0) == Some(x);
    if k > 0 { ClimbIsUp(p, p[x].value, limit - 1, k - 1); }
    ClimbWithin(p, x, limit);
  }

  lemma {:induction false} ClimbWithin(p: ParentMap, x: Text, limit: nat)
    ensures |Climb(p, x, limit)| <= limit
    decreases limit
  {
    if limit > 0 && x in p && p[x].Some? && p[x].value in p { ClimbWithin(p, p[x].value, limit - 1); }
  }

  /** A climb that is not cut short stops at a root or at a parent nobody
      declares. */
  lemma {:induction false} ClimbStops(p: ParentMap, x: Text, limit: nat)
    requires x in p && Up(p, x, limit + 1).None?
    ensures var n := |Climb(p, x, limit)|; Up(p, x, n + 1).None? || Up(p, x, n + 1).value !in p
    ensures var n := |Climb(p, x, limit)|; Up(p, x, n + 2).None?
    decreases limit
  {
    assert Up(p, x, 0) == Some(x);
    assert Up(p, x, 1) == p[x];
    if p[x].None? || p[x].value !in p {
      assert Up(p, x, 2).None?;
    } else {
      var y := p[x].value;
      UpAdds(p, x, 1, limit);
      ClimbStops(p, y, limit - 1);
      var m := |Climb(p, y, limit - 1)|;
      UpAdds(p, x, 1, m + 1);
      UpAdds(p, x, 1, m + 2);
    }
  }

  /** The declared domains above `x` read off one link at a time, up to where
      nothing further is declared. */
  ghost predicate Chain(p: ParentMap, x: Text, chain: seq<Text>) {
    && (forall i | 0 <= i < |chain| :: Up(p, x, i + 1) == Some(chain[i]) && chain[i] in p)
    && (Up(p, x, |chain| + 1).None? || Up(p, x, |chain| + 1).value !in p)
  }

  lemma ChainSuffix(p: ParentMap, x: Text, chain: seq<Text>, k: nat)
    requires Chain(p, x, chain) && k < |chain|
    ensures Chain(p, chain[k], chain[k + 1..])
  {
    var above := chain[k + 1..];
    forall i | 0 <= i < |above| ensures Up(p, chain[k], i + 1) == Some(above[i]) && above[i] in p {
      UpAdds(p, x, k + 1, i + 1);
      assert Up(p, x, (k + 1 + i) + 1) == Some(chain[k + 1 + i]);
    }
    UpAdds(p, x, k + 1, |chain| - k);
  }

  /** The chain is the climb. */
  lemma {:induction false} ClimbIsTheChain(p: ParentMap, x: Text, chain: seq<Text>, limit: nat)
    requires x in p && |chain| <= limit && Chain(p, x, chain)
    ensures Climb(p, x, limit) == chain
    decreases limit
  {
    assert Up(p, x, 0) == Some(x) && Up(p, x, 1) == p[x];
    if chain != [] {
      assert Up(p, x, 0 + 1) == Some(chain[0]);
      ChainSuffix(p, x, chain, 0);
      ClimbIsTheChain(p, chain[0], chain[1..], limit - 1);
      assert chain == [chain[0]] + chain[1..];
    }
  }

  // ----- Ancestry is a strict partial order --------------------------------

  /** The ancestors of an unmarked domain are its whole duplicate-free declared
      chain, it is not its own ancestor, and there are at most 32 of them. */
  lemma AncestorsAreTheChain(p: ParentMap, x: Text)
    requires x in p && !MarkedCyclic(p, x)
    ensures var a := AncestorsOf(p, x);
            && |a| <= MAX_FAILURE_DOMAIN_DEPTH
            && Chain(p, x, a)
            && x !in a
            && (forall j, k | 0 <= j < k < |a| :: a[j] != a[k])
  {
    var a := AncestorsOf(p, x);
    ClimbWithin(p, x, MAX_FAILURE_DOMAIN_DEPTH);
    ClimbStops(p, x, MAX_FAILURE_DOMAIN_DEPTH);
    MarkedCyclicIff(p, x);
    forall k | 0 <= k < |a| ensures Up(p, x, k + 1) == Some(a[k]) && a[k] in p && a[k] != x {
      ClimbIsUp(p, x, MAX_FAILURE_DOMAIN_DEPTH, k);
      assert Up(p, x, 0) == Some(x);
    }
    forall j, k | 0 <= j < k < |a| ensures a[j] != a[k] {
      assert Up(p, x, j + 1) == Some(a[j]) && Up(p, x, k + 1) == Some(a[k]);
    }
  }

  lemma NotBeyondAbove(p: ParentMap, x: Text, k: nat, y: Text)
    requires !MarkedCyclic(p, x) && Up(p, x, k) == Some(y)
    ensures !MarkedCyclic(p, y)
  {
    UpAdds(p, x, k, MAX_FAILURE_DOMAIN_DEPTH + 1);
    UpAdds(p, x, MAX_FAILURE_DOMAIN_DEPTH + 1, k);
  }

  /** The ancestors of the k-th ancestor are what follows it in the list. */
  lemma AncestorsOfAncestor(p: ParentMap, x: Text, k: nat)
    requires x in p && !MarkedCyclic(p, x) && k < |AncestorsOf(p, x)|
    ensures var a := AncestorsOf(p, x);
            a[k] in p && !MarkedCyclic(p, a[k]) && AncestorsOf(p, a[k]) == a[k + 1..]
  {
    var a := AncestorsOf(p, x);
    AncestorsAreTheChain(p, x);
    var y := a[k];
    assert Up(p, x, k + 1) == Some(y);
    NotBeyondAbove(p, x, k + 1, y);
    ChainSuffix(p, x, a, k);
    ClimbIsTheChain(p, y, a[k + 1..], MAX_FAILURE_DOMAIN_DEPTH);
  }

  /** Ancestry is transitive, and no domain is above itself. */
  lemma AncestryIsAStrictOrder(p: ParentMap, x: Text, y: Text, z: Text)
    requires x in p && y in AncestorsOf(p, x)
    ensures y != x && y in p
    ensures x !in AncestorsOf(p, y)
    ensures z in AncestorsOf(p, y) ==> z in AncestorsOf(p, x)
  {
    AncestorsAreTheChain(p, x);
    var k :| 0 <= k < |AncestorsOf(p, x)| && AncestorsOf(p, x)[k] == y;
    AncestorsOfAncestor(p, x, k);
  }

  // ----- Resolution ---------------------------------------------------------

  function WithAncestry(node: FailureDomainNode, cycle: bool, ancestors: seq<Text>): FailureDomainNode {
    if cycle then node.(ancestors := [], depth := 0, status := Status.FailureDomainCycle)
    else node.(ancestors := ancestors, depth := |ancestors|)
  }

  /** A node with the ancestry its parent links determine. */
  function Climbed(p: ParentMap, node: FailureDomainNode): FailureDomainNode {
    WithAncestry(node, MarkedCyclic(p, node.id), AncestorsOf(p, node.id))
  }

  function ChildList(children: set<Text>): seq<Text> {
    KeysAreInjective();
    Sorted(children, Identity)
  }

  /** A node after resolution, as the parent links determine it. */
  function ResolvedNode(p: ParentMap, node: FailureDomainNode): (r: FailureDomainNode)
    ensures r.id == node.id && r.parent == node.parent && r.members == node.members
    ensures r.ancestors == AncestorsOf(p, node.id)
  {
    Climbed(p, node).(children := ChildList(ChildrenOf(p, node.id)))
  }

  function Resolved(p: ParentMap, nodes: seq<FailureDomainNode>): seq<FailureDomainNode> {
    seq(|nodes|, i requires 0 <= i < |nodes| => ResolvedNode(p, nodes[i]))
  }

  function CyclicIds(p: ParentMap): set<Text> { set id | id in p && MarkedCyclic(p, id) }

  lemma {:induction false} SameLinksSameParents(a: seq<FailureDomainNode>, b: seq<FailureDomainNode>)
    requires |a| == |b|
    requires forall i | 0 <= i < |a| :: a[i].id == b[i].id && a[i].parent == b[i].parent
    ensures Parents(a) == Parents(b)
  {
    if a != [] { SameLinksSameParents(a[..|a| - 1], b[..|b| - 1]); }
  }

  lemma ResolvedKeepsParents(p: ParentMap, nodes: seq<FailureDomainNode>)
    requires DistinctIds(nodes)
    ensures DistinctIds(Resolved(p, nodes)) && Parents(Resolved(p, nodes)) == Parents(nodes)
  {
    hide ResolvedNode, Parents, AncestorsOf;
    SameLinksSameParents(Resolved(p, nodes), nodes);
  }

  /** Resolving a resolved forest changes nothing. */
  lemma ResolutionIsIdempotent(nodes: seq<FailureDomainNode>)
    requires DistinctIds(nodes)
    ensures var p := Parents(nodes);
            var r := Resolved(p, nodes);
            Parents(r) == p && Resolved(Parents(r), r) == r
  {
    ResolvedKeepsParents(Parents(nodes), nodes);
  }

  /** Children invert parents. */
  lemma ChildrenInvertParents(nodes: seq<FailureDomainNode>, i: nat, j: nat)
    requires DistinctIds(nodes) && i < |nodes| && j < |nodes|
    ensures var r := Resolved(Parents(nodes), nodes);
            r[i].id in r[j].children <==> r[i].parent == Some(r[j].id)
  {
    ParentsAt(nodes);
    KeysAreInjective();
  }

  class FailureDomainForest {
    var nodes: seq<FailureDomainNode>
    var cyclic: set<Text>
    var dangling: set<Text>
    var status: Status

    constructor ()
      ensures nodes == [] && cyclic == {} && dangling == {} && status == Status.Unknown
    {
      nodes, cyclic, dangling, status := [], {}, {}, Status.Unknown;
    }

    /** The node of an identity, if it is declared. */
    method Find(id: Text) returns (found: Option<FailureDomainNode>)
      ensures found.Some? ==> found.value in nodes && found.value.id == id
      ensures found.None? ==> forall n | n in nodes :: n.id != id
    {
      for i := 0 to |nodes|
        invariant forall k | 0 <= k < i :: nodes[k].id != id
      {
        if nodes[i].id == id { return Some(nodes[i]); }
      }
      return None;
    }

    /** Resolves every node's ancestors, depth and children, and collects the
        nodes whose chain does not end. */
    method ResolveAncestry()
      requires DistinctIds(nodes)
      modifies this`nodes, this`cyclic
      ensures nodes == Resolved(Parents(old(nodes)), old(nodes))
      ensures cyclic == old(cyclic) + CyclicIds(Parents(old(nodes)))
    {
      hide Parents, Climbed, CyclicIds, ChildrenOf, ChildList, AncestorsOf, Indexes;
      ghost var p := Parents(nodes);
      var indexOf := IndexNodes(nodes);
      var climbed, marked := ClimbAll(nodes, indexOf);
      cyclic := cyclic + marked;
      var children := CollectChildren(nodes, indexOf);
      ghost var original := nodes;
      nodes := AttachChildren(climbed, children);
      assert nodes == Resolved(p, original);
    }

    /** True only when both resources are placed and no domain is above both. */
    method AreSeparate(left: ResourceKey, right: ResourceKey) returns (separate: bool)
      ensures separate <==>
        (Domains(nodes, left) != {} && Domains(nodes, right) != {} && Domains(nodes, left) !! Domains(nodes, right))
    {
      var leftDomains: set<Text>, rightDomains: set<Text> := {}, {};
      for i := 0 to |nodes|
        invariant leftDomains == Domains(nodes[..i], left)
        invariant rightDomains == Domains(nodes[..i], right)
      {
        var node := nodes[i];
        assert nodes[..i + 1][..i] == nodes[..i];
        if left in node.members { leftDomains := leftDomains + WithAncestors(node); }
        if right in node.members { rightDomains := rightDomains + WithAncestors(node); }
      }
      assert nodes[..|nodes|] == nodes;
      separate := leftDomains != {} && rightDomains != {} && leftDomains !! rightDomains;
    }
  }

  method IndexNodes(nodes: seq<FailureDomainNode>) returns (indexOf: map<Text, nat>)
    requires DistinctIds(nodes)
    ensures Indexes(indexOf, nodes)
  {
    indexOf := map[];
    for index := 0 to |nodes|
      invariant indexOf.Keys == Parents(nodes[..index]).Keys
      invariant forall id | id in indexOf :: indexOf[id] < index && nodes[indexOf[id]].id == id
    {
      assert nodes[..index + 1][..index] == nodes[..index];
      indexOf := indexOf[nodes[index].id := index];
    }
    assert nodes[..|nodes|] == nodes;
  }

  ghost predicate Indexes(indexOf: map<Text, nat>, nodes: seq<FailureDomainNode>) {
    && (forall id :: id in indexOf <==> id in Parents(nodes))
    && (forall id | id in indexOf :: indexOf[id] < |nodes| && nodes[indexOf[id]].id == id)
  }

  /** The ancestry of every node, and the nodes whose chain does not end. */
  method ClimbAll(nodes: seq<FailureDomainNode>, indexOf: map<Text, nat>)
      returns (climbed: seq<FailureDomainNode>, marked: set<Text>)
    requires DistinctIds(nodes) && Indexes(indexOf, nodes)
    ensures |climbed| == |nodes|
    ensures forall k | 0 <= k < |nodes| :: climbed[k] == Climbed(Parents(nodes), nodes[k])
    ensures marked == CyclicIds(Parents(nodes))
  {
    hide Parents, MarkedCyclic, Climbed, CyclicIds, DistinctIds, Indexes;
    climbed, marked := [], {};
    for index := 0 to |nodes|
      invariant |climbed| == index
      invariant forall k | 0 <= k < index :: climbed[k] == Climbed(Parents(nodes), nodes[k])
      invariant marked == MarkedIn(Parents(nodes), nodes[..index])
    {
      var node, cycle := ClimbOne(nodes, indexOf, index);
      if cycle { marked := marked + {nodes[index].id}; }
      climbed := climbed + [node];
      assert nodes[..index + 1][..index] == nodes[..index];
    }
    assert nodes[..|nodes|] == nodes;
    MarkedInIsCyclicIds(Parents(nodes), nodes);
  }

  method ClimbOne(nodes: seq<FailureDomainNode>, indexOf: map<Text, nat>, index: nat)
      returns (node: FailureDomainNode, cycle: bool)
    requires index < |nodes| && DistinctIds(nodes) && Indexes(indexOf, nodes)
    ensures node == Climbed(Parents(nodes), nodes[index])
    ensures cycle <==> MarkedCyclic(Parents(nodes), nodes[index].id)
  {
    ParentsAt(nodes);
    hide Parents, MarkedCyclic, AncestorsOf;
    var ancestors;
    cycle, ancestors := Ancestry(nodes, indexOf, index, Parents(nodes));
    node := WithAncestry(nodes[index], cycle, ancestors);
  }

  function MarkedIn(p: ParentMap, nodes: seq<FailureDomainNode>): set<Text> {
    if nodes == [] then {}
    else
      var id := nodes[|nodes| - 1].id;
      MarkedIn(p, nodes[..|nodes| - 1]) + (if MarkedCyclic(p, id) then {id} else {})
  }

  lemma MarkedInIsCyclicIds(p: ParentMap, nodes: seq<FailureDomainNode>)
    requires DistinctIds(nodes) && p == Parents(nodes)
    ensures MarkedIn(p, nodes) == CyclicIds(p)
  {
    ParentsAt(nodes);
    hide Parents, MarkedCyclic, MarkedIn;
    forall id ensures id in MarkedIn(p, nodes) <==> id in CyclicIds(p) { MarkedInMembership(p, nodes, id); }
  }

  lemma {:induction false} MarkedInMembership(p: ParentMap, nodes: seq<FailureDomainNode>, id: Text)
    ensures id in MarkedIn(p, nodes) <==> MarkedCyclic(p, id) && exists i | 0 <= i < |nodes| :: nodes[i].id == id
  {
    hide MarkedCyclic;
    if nodes != [] { MarkedInMembership(p, nodes[..|nodes| - 1], id); }
  }

  /** The nodes of a list that name `id` as their parent. */
  function NamedBy(nodes: seq<FailureDomainNode>, id: Text): set<Text> {
    if nodes == [] then {}
    else
      var last := nodes[|nodes| - 1];
      NamedBy(nodes[..|nodes| - 1], id) + (if last.parent == Some(id) then {last.id} else {})
  }

  lemma {:induction false} NamedByMembership(nodes: seq<FailureDomainNode>, id: Text, c: Text)
    ensures c in NamedBy(nodes, id) <==> exists i | 0 <= i < |nodes| :: nodes[i].id == c && nodes[i].parent == Some(id)
  {
    if nodes != [] {
      var front := nodes[..|nodes| - 1];
      NamedByMembership(front, id, c);
      if i :| 0 <= i < |front| && front[i].id == c && front[i].parent == Some(id) {
        assert nodes[i].id == c && nodes[i].parent == Some(id);
      }
      if i :| 0 <= i < |nodes| && nodes[i].id == c && nodes[i].parent == Some(id) {
        if i < |front| { assert front[i].id == c && front[i].parent == Some(id); }
      }
    }
  }

  lemma NamedByIsChildren(nodes: seq<FailureDomainNode>, id: Text)
    requires DistinctIds(nodes)
    ensures NamedBy(nodes, id) == ChildrenOf(Parents(nodes), id)
  {
    ParentsAt(nodes);
    hide Parents, NamedBy;
    forall c ensures c in NamedBy(nodes, id) <==> c in ChildrenOf(Parents(nodes), id) {
      NamedByMembership(nodes, id, c);
    }
  }

  /** Puts each node's sorted children in place. */
  method AttachChildren(climbed: seq<FailureDomainNode>, children: seq<set<Text>>)
      returns (linked: seq<FailureDomainNode>)
    requires |children| == |climbed|
    ensures |linked| == |climbed|
    ensures forall k | 0 <= k < |climbed| :: linked[k] == climbed[k].(children := ChildList(children[k]))
  {
    hide ChildList;
    linked := climbed;
    for index := 0 to |climbed|
      invariant |linked| == |climbed|
      invariant forall k | 0 <= k < index :: linked[k] == climbed[k].(children := ChildList(children[k]))
      invariant forall k | index <= k < |climbed| :: linked[k] == climbed[k]
    {
      linked := linked[index := linked[index].(children := ChildList(children[index]))];
    }
  }

  /** For every node, the nodes that name it as their parent. */
  method CollectChildren(nodes: seq<FailureDomainNode>, indexOf: map<Text, nat>) returns (children: seq<set<Text>>)
    requires DistinctIds(nodes) && Indexes(indexOf, nodes)
    ensures |children| == |nodes|
    ensures forall k | 0 <= k < |nodes| :: children[k] == ChildrenOf(Parents(nodes), nodes[k].id)
  {
    hide Parents, DistinctIds, Indexes, ChildrenOf;
    children := seq(|nodes|, _ => {});
    for index := 0 to |nodes|
      invariant |children| == |nodes|
      invariant forall k | 0 <= k < |nodes| :: children[k] == NamedBy(nodes[..index], nodes[k].id)
    {
      children := AddChild(nodes, indexOf, index, children);
    }
    assert nodes[..|nodes|] == nodes;
    forall k | 0 <= k < |nodes| ensures children[k] == ChildrenOf(Parents(nodes), nodes[k].id) {
      NamedByIsChildren(nodes, nodes[k].id);
    }
  }

  /** Adds one node to the children of the node it names. */
  method AddChild(nodes: seq<FailureDomainNode>, indexOf: map<Text, nat>, index: nat, children: seq<set<Text>>)
      returns (more: seq<set<Text>>)
    requires DistinctIds(nodes) && Indexes(indexOf, nodes) && index < |nodes| && |children| == |nodes|
    requires forall k | 0 <= k < |nodes| :: children[k] == NamedBy(nodes[..index], nodes[k].id)
    ensures |more| == |nodes|
    ensures forall k | 0 <= k < |nodes| :: more[k] == NamedBy(nodes[..index + 1], nodes[k].id)
  {
    ParentsAt(nodes);
    hide Parents;
    assert nodes[..index + 1][..index] == nodes[..index];
    more := children;
    var node := nodes[index];
    if node.parent.Some? && node.parent.value in indexOf {
      var at := indexOf[node.parent.value];
      more := more[at := more[at] + {node.id}];
    }
  }

  /** Follows the parents of one node: whether the chain closes on itself or
      runs past the cut-off, and the declared domains it passed. */
  method Ancestry(nodes: seq<FailureDomainNode>, indexOf: map<Text, nat>, index: nat, ghost p: ParentMap)
      returns (cycle: bool, ancestors: seq<Text>)
    requires index < |nodes|
    requires forall k | 0 <= k < |nodes| :: nodes[k].id in p && p[nodes[k].id] == nodes[k].parent
    requires forall id :: id in indexOf <==> id in p
    requires forall id | id in indexOf :: indexOf[id] < |nodes| && nodes[indexOf[id]].id == id
    ensures cycle <==> MarkedCyclic(p, nodes[index].id)
    ensures ancestors == AncestorsOf(p, nodes[index].id)
  {
    var node := nodes[index];
    var cursor: nat := index;
    var depth := 0;
    var seen: seq<Text> := [];
    ancestors := [];
    cycle := false;
    while nodes[cursor].parent.Some?
      invariant 0 <= cursor < |nodes|
      invariant depth == |ancestors| <= MAX_FAILURE_DOMAIN_DEPTH && seen == ancestors
      invariant Up(p, node.id, depth) == Some(nodes[cursor].id)
      invariant forall i | 0 <= i < |ancestors| :: Up(p, node.id, i + 1) == Some(ancestors[i]) && ancestors[i] in p
      decreases MAX_FAILURE_DOMAIN_DEPTH - depth
    {
      var parent := nodes[cursor].parent.value;
      assert Up(p, node.id, depth + 1) == Some(parent);
      if parent in seen || parent == node.id {
        ChainRepeats(p, node.id, ancestors, parent);
        return true, [];
      }
      if depth >= MAX_FAILURE_DOMAIN_DEPTH {
        return true, [];
      }
      seen := seen + [parent];
      if parent !in indexOf {
        assert Up(p, node.id, depth + 2).None?;
        NotBeyond(p, node.id, depth + 2);
        ClimbIsTheChain(p, node.id, ancestors, MAX_FAILURE_DOMAIN_DEPTH);
        return false, ancestors;
      }
      cursor := indexOf[parent];
      ancestors := ancestors + [parent];
      depth := depth + 1;
    }
    assert Up(p, node.id, depth + 1).None?;
    NotBeyond(p, node.id, depth + 1);
    ClimbIsTheChain(p, node.id, ancestors, MAX_FAILURE_DOMAIN_DEPTH);
  }

  lemma ChainRepeats(p: ParentMap, x: Text, chain: seq<Text>, parent: Text)
    requires forall i | 0 <= i < |chain| :: Up(p, x, i + 1) == Some(chain[i])
    requires Up(p, x, |chain| + 1) == Some(parent)
    requires parent in chain || parent == x
    ensures MarkedCyclic(p, x)
  {
    assert Up(p, x, 0) == Some(x);
    if parent == x {
      RepeatNeverEnds(p, x, 0, |chain| + 1, MAX_FAILURE_DOMAIN_DEPTH + 1);
    } else {
      var i :| 0 <= i < |chain| && chain[i] == parent;
      RepeatNeverEnds(p, x, i + 1, |chain| + 1, MAX_FAILURE_DOMAIN_DEPTH + 1);
    }
  }

  lemma NotBeyond(p: ParentMap, x: Text, k: nat)
    requires k <= MAX_FAILURE_DOMAIN_DEPTH + 1 && Up(p, x, k).None?
    ensures !MarkedCyclic(p, x)
  {
    if Up(p, x, MAX_FAILURE_DOMAIN_DEPTH + 1).Some? {
      UpDefinedBelow(p, x, k, MAX_FAILURE_DOMAIN_DEPTH + 1);
      assert false;
    }
  }

  // ----- Separateness -------------------------------------------------------

  function WithAncestors(node: FailureDomainNode): set<Text> {
    {node.id} + set a | a in node.ancestors
  }

  /** The domains a resource sits in, and everything above them. */
  function Domains(nodes: seq<FailureDomainNode>, key: ResourceKey): set<Text> {
    if nodes == [] then {}
    else
      var node := nodes[|nodes| - 1];
      Domains(nodes[..|nodes| - 1], key) + (if key in node.members then WithAncestors(node) else {})
  }

  lemma {:induction false} DomainsMembership(nodes: seq<FailureDomainNode>, key: ResourceKey, d: Text)
    ensures d in Domains(nodes, key) <==>
      exists i | 0 <= i < |nodes| :: key in nodes[i].members && d in WithAncestors(nodes[i])
  {
    if nodes != [] {
      var front := nodes[..|nodes| - 1];
      DomainsMembership(front, key, d);
      if i :| 0 <= i < |front| && key in front[i].members && d in WithAncestors(front[i]) {
        assert key in nodes[i].members && d in WithAncestors(nodes[i]);
      }
      if i :| 0 <= i < |nodes| && key in nodes[i].members && d in WithAncestors(nodes[i]) {
        if i < |front| { assert key in front[i].members && d in WithAncestors(front[i]); }
      }
    }
  }

  ghost predicate Placed(nodes: seq<FailureDomainNode>, key: ResourceKey) {
    exists i | 0 <= i < |nodes| :: key in nodes[i].members
  }

  /** Some chain of parent links leads from a domain holding the resource to `d`. */
  ghost predicate ShareFate(nodes: seq<FailureDomainNode>, key: ResourceKey, d: Text) {
    exists i, k: nat | 0 <= i < |nodes| :: key in nodes[i].members && Up(Parents(nodes), nodes[i].id, k) == Some(d)
  }

  ghost predicate Sound(nodes: seq<FailureDomainNode>) {
    && DistinctIds(nodes)
    && (forall id | id in Parents(nodes) :: !MarkedCyclic(Parents(nodes), id))
    && (forall id | id in Parents(nodes) :: Parents(nodes)[id].Some? ==> Parents(nodes)[id].value in Parents(nodes))
  }

  lemma {:induction false} NothingDangles(p: ParentMap, x: Text, k: nat)
    requires x in p && (forall id | id in p :: p[id].Some? ==> p[id].value in p)
    ensures Up(p, x, k).Some? ==> Up(p, x, k).value in p
  {
    if k > 0 { NothingDangles(p, x, k - 1); }
  }

  /** In a forest without cycles or dangling parents, the recorded domains of a
      resource are everything it shares a fate with. */
  lemma DomainsAreTheUpClosure(nodes: seq<FailureDomainNode>, key: ResourceKey, d: Text)
    requires Sound(nodes)
    ensures d in Domains(Resolved(Parents(nodes), nodes), key) <==> ShareFate(nodes, key, d)
  {
    hide Parents, ResolvedNode, AncestorsOf, MarkedCyclic;
    var p := Parents(nodes);
    var r := Resolved(p, nodes);
    ParentsAt(nodes);
    DomainsMembership(r, key, d);
    if i :| 0 <= i < |r| && key in r[i].members && d in WithAncestors(r[i]) {
      var k := LinkTo(p, nodes[i].id, d);
      assert key in nodes[i].members;
    }
    if i, k: nat :| 0 <= i < |nodes| && key in nodes[i].members && Up(p, nodes[i].id, k) == Some(d) {
      LinkRecorded(p, nodes[i].id, k, d);
      assert key in r[i].members && d in WithAncestors(r[i]);
    }
  }

  lemma LinkTo(p: ParentMap, x: Text, d: Text) returns (k: nat)
    requires x in p && !MarkedCyclic(p, x) && (d == x || d in AncestorsOf(p, x))
    ensures Up(p, x, k) == Some(d)
  {
    if d == x { return 0; }
    AncestorsAreTheChain(p, x);
    var j :| 0 <= j < |AncestorsOf(p, x)| && AncestorsOf(p, x)[j] == d;
    return j + 1;
  }

  lemma LinkRecorded(p: ParentMap, x: Text, k: nat, d: Text)
    requires x in p && !MarkedCyclic(p, x) && Up(p, x, k) == Some(d)
    requires forall id | id in p :: p[id].Some? ==> p[id].value in p
    ensures d == x || d in AncestorsOf(p, x)
  {
    AncestorsAreTheChain(p, x);
    var a := AncestorsOf(p, x);
    if k > |a| {
      UpDefinedBelow(p, x, |a| + 1, k);
      NothingDangles(p, x, |a| + 1);
      assert false;
    } else if k > 0 {
      assert Up(p, x, (k - 1) + 1) == Some(a[k - 1]);
    }
  }

  /** Separateness is proved, not assumed: both resources are placed and no
      domain is above both, at any level. */
  lemma SeparateIff(nodes: seq<FailureDomainNode>, left: ResourceKey, right: ResourceKey)
    requires Sound(nodes)
    ensures var r := Resolved(Parents(nodes), nodes);
            (Domains(r, left) != {} && Domains(r, right) != {} && Domains(r, left) !! Domains(r, right)) <==>
            (Placed(nodes, left) && Placed(nodes, right)
             && !exists d :: ShareFate(nodes, left, d) && ShareFate(nodes, right, d))
  {
    var r := Resolved(Parents(nodes), nodes);
    forall d ensures d in Domains(r, left) <==> ShareFate(nodes, left, d) { DomainsAreTheUpClosure(nodes, left, d); }
    forall d ensures d in Domains(r, right) <==> ShareFate(nodes, right, d) { DomainsAreTheUpClosure(nodes, right, d); }
    PlacedIffDomains(nodes, left);
    PlacedIffDomains(nodes, right);
  }

  lemma PlacedIffDomains(nodes: seq<FailureDomainNode>, key: ResourceKey)
    ensures Placed(nodes, key) <==> Domains(Resolved(Parents(nodes), nodes), key) != {}
  {
    hide ResolvedNode, Parents, AncestorsOf;
    var r := Resolved(Parents(nodes), nodes);
    if Placed(nodes, key) {
      var i :| 0 <= i < |nodes| && key in nodes[i].members;
      DomainsMembership(r, key, r[i].id);
      assert key in r[i].members && r[i].id in WithAncestors(r[i]);
    }
    if Domains(r, key) != {} {
      var d :| d in Domains(r, key);
      DomainsMembership(r, key, d);
      var i :| 0 <= i < |r| && key in r[i].members && d in WithAncestors(r[i]);
      assert key in nodes[i].members;
    }
  }
}
