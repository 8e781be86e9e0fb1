/** What the nodes of a site's forest say: whose members they hold, whose parent and
    class they take over, and which status they and the forest have. */
module ForestNodes {
  import opened Model
  import opened Admission
  import opened Attribution
  import opened Forest
  import opened FailureDomains

  // ----- Members --------------------------------------------------------------

  lemma {:induction false} ClaimMembersAt(claims: seq<Claim>, id: Text, key: ResourceKey)
    ensures key in ClaimMembers(claims, id) <==>
      exists j :: 0 <= j < |claims| && claims[j].FailureDomainClaim? && claims[j].id == id && key in claims[j].members
  {
    if claims != [] { ClaimMembersAt(claims[..|claims| - 1], id, key); }
  }

  lemma {:induction false} DeclaredMembersAt(lists: seq<seq<Claim>>, id: Text, key: ResourceKey)
    ensures key in DeclaredMembers(lists, id) <==>
      exists i, j :: 0 <= i < |lists| && 0 <= j < |lists[i]|
        && lists[i][j].FailureDomainClaim? && lists[i][j].id == id && key in lists[i][j].members
  {
    hide ClaimMembers;
    if lists != [] {
      DeclaredMembersAt(lists[..|lists| - 1], id, key);
      ClaimMembersAt(lists[|lists| - 1], id, key);
    }
  }

  /** The member declares the resource part of the domain. */
  ghost predicate Places(a: Admission, id: Text, key: ResourceKey) {
    exists c :: Claims(a, c) && c.FailureDomainClaim? && c.id == id && key in c.members
  }

  lemma MembersFromIff(admissions: Admissions, source: SourceRef, id: Text, key: ResourceKey)
    ensures key in MembersFrom(admissions, source, id) <==> source.domain in admissions && Places(admissions[source.domain], id, key)
  {
    hide DeclaredMembers;
    if source.domain in admissions && admissions[source.domain].record.declaration.Some? {
      var lists := admissions[source.domain].record.declaration.value.lists;
      DeclaredMembersAt(lists, id, key);
      if key in DeclaredMembers(lists, id) {
        var i, j :| 0 <= i < |lists| && 0 <= j < |lists[i]|
          && lists[i][j].FailureDomainClaim? && lists[i][j].id == id && key in lists[i][j].members;
        assert Claims(admissions[source.domain], lists[i][j]);
      }
    }
  }

  lemma {:induction false} AttestedMembersAt(admissions: Admissions, attestations: seq<Attestation>, id: Text, key: ResourceKey)
    ensures key in AttestedMembers(admissions, attestations, id) <==>
      exists i :: 0 <= i < |attestations| && key in MembersFrom(admissions, attestations[i].source, id)
  {
    hide MembersFrom;
    if attestations != [] { AttestedMembersAt(admissions, attestations[..|attestations| - 1], id, key); }
  }

  /** The members gathered for a domain are exactly the resources some admitted member
      declares part of it. */
  lemma GatheredIff(env: Env, admissions: Admissions, id: Text, key: ResourceKey)
    requires |admissions| <= MAX_MEMBER_DOMAINS && OwnRecords(admissions) && DomainKey(id) in ResourcesOf(env, admissions)
    ensures key in AttestedMembers(admissions, ResourcesOf(env, admissions)[DomainKey(id)].attestations, id) <==>
      exists d :: d in admissions && Places(admissions[d], id, key)
  {
    hide ResourcesOf, AttestedMembers, MembersFrom, Claims;
    var r := ResourcesOf(env, admissions)[DomainKey(id)];
    AttestedMembersAt(admissions, r.attestations, id, key);
    AttestorsAreTheMentioners(env, admissions, DomainKey(id));
    forall i | 0 <= i < |r.attestations|
      ensures key in MembersFrom(admissions, r.attestations[i].source, id) <==>
        r.attestations[i].source.domain in admissions && Places(admissions[r.attestations[i].source.domain], id, key)
    {
      MembersFromIff(admissions, r.attestations[i].source, id, key);
    }
    if d :| d in admissions && Places(admissions[d], id, key) {
      PlacedIsMentioned(admissions[d], id, key);
      assert admissions[d].record.Source() in Attestors(r);
      var i :| 0 <= i < |r.attestations| && r.attestations[i].source == admissions[d].record.Source();
    }
  }

  lemma PlacedIsMentioned(a: Admission, id: Text, key: ResourceKey)
    requires Places(a, id, key)
    ensures Mentions(a, DomainKey(id))
  {
    hide Claims;
  }

  // ----- One node -------------------------------------------------------------

  /** Some admitted member claims the domain with this class and parent. */
  ghost predicate ClaimsDomain(admissions: Admissions, id: Text, domainClass: FailureDomainClass, parent: Option<Text>) {
    exists d, c :: d in admissions && Claims(admissions[d], c) && c.FailureDomainClaim? && c.id == id
      && c.domainClass == domainClass && c.parent == parent
  }

  /** A node holds resources declared part of its domain, and all of them unless they are
      more than a domain may have. */
  ghost predicate HoldsItsMembers(admissions: Admissions, n: FailureDomainNode, gathered: set<ResourceKey>) {
    && (forall key | key in n.members :: exists d :: d in admissions && Places(admissions[d], n.id, key))
    && (|gathered| <= MAX_RESOURCE_MEMBERS ==>
          forall key :: key in n.members <==> exists d :: d in admissions && Places(admissions[d], n.id, key))
  }

  /** A node takes over the class and the parent of one claim about its domain, if there
      is any. */
  ghost predicate TakesOverAClaim(admissions: Admissions, n: FailureDomainNode) {
    if exists d, c :: d in admissions && Claims(admissions[d], c) && c.FailureDomainClaim? && c.id == n.id
    then ClaimsDomain(admissions, n.id, n.domainClass, n.parent)
    else n.domainClass == UnknownClass && n.parent == None
  }

  lemma NodeSaysWhatIsClaimed(env: Env, admissions: Admissions, n: FailureDomainNode)
    requires |admissions| <= MAX_MEMBER_DOMAINS && OwnRecords(admissions)
    requires n in ForestOf(admissions, ResourcesOf(env, admissions)).nodes
    ensures DomainKey(n.id) in ResourcesOf(env, admissions) && TakesOverAClaim(admissions, n)
    ensures HoldsItsMembers(admissions, n,
      AttestedMembers(admissions, ResourcesOf(env, admissions)[DomainKey(n.id)].attestations, n.id))
  {
    hide *;
    var resources := ResourcesOf(env, admissions);
    ResolvedNodeIs(admissions, resources, n);
    var m := NodeOf(admissions, resources, DomainKey(n.id));
    NodeParts(admissions, resources, n.id);
    MembersHold(env, admissions, n);
    ClaimTaken(env, admissions, n);
  }

  lemma NodeParts(admissions: Admissions, resources: Resources, id: Text)
    requires DomainKey(id) in resources
    ensures var n, r := NodeOf(admissions, resources, DomainKey(id)), resources[DomainKey(id)];
            && n.members == Bounded(AttestedMembers(admissions, r.attestations, id))
            && n.domainClass == ClassOf(r) && n.parent == ParentOf(r)
  {
    hide AttestedMembers, Bounded, NodeStatus, ClassOf, ParentOf;
  }

  lemma MembersHold(env: Env, admissions: Admissions, n: FailureDomainNode)
    requires |admissions| <= MAX_MEMBER_DOMAINS && OwnRecords(admissions) && DomainKey(n.id) in ResourcesOf(env, admissions)
    requires n.members == Bounded(AttestedMembers(admissions, ResourcesOf(env, admissions)[DomainKey(n.id)].attestations, n.id))
    ensures HoldsItsMembers(admissions, n,
      AttestedMembers(admissions, ResourcesOf(env, admissions)[DomainKey(n.id)].attestations, n.id))
  {
    hide ResourcesOf, AttestedMembers, Places, Bounded;
    var gathered := AttestedMembers(admissions, ResourcesOf(env, admissions)[DomainKey(n.id)].attestations, n.id);
    forall key ensures key in gathered <==> exists d :: d in admissions && Places(admissions[d], n.id, key) {
      GatheredIff(env, admissions, n.id, key);
    }
    BoundedWhenFew(gathered);
  }

  lemma ClaimTaken(env: Env, admissions: Admissions, n: FailureDomainNode)
    requires DomainKey(n.id) in ResourcesOf(env, admissions)
    requires var r := ResourcesOf(env, admissions)[DomainKey(n.id)]; n.domainClass == ClassOf(r) && n.parent == ParentOf(r)
    ensures TakesOverAClaim(admissions, n)
  {
    hide ResourcesOf, Claims;
    PointerIsAClaim(env, admissions, DomainKey(n.id), 6);
    forall d, c | d in admissions && Claims(admissions[d], c) && c.FailureDomainClaim? && c.id == n.id
      ensures c.Key() == DomainKey(n.id) && c.List() == 6
    {
    }
  }

  lemma BoundedWhenFew(members: set<ResourceKey>)
    ensures Bounded(members) <= members && (|members| <= MAX_RESOURCE_MEMBERS ==> Bounded(members) == members)
  {
  }

  /** A node of the forest is that of its declared domain. */
  lemma ResolvedNodeIs(admissions: Admissions, resources: Resources, n: FailureDomainNode)
    requires n in ForestOf(admissions, resources).nodes
    ensures DomainKey(n.id) in resources
    ensures var f, m := ForestOf(admissions, resources), NodeOf(admissions, resources, DomainKey(n.id));
            && n.id == m.id && n.parent == m.parent && n.members == m.members && n.domainClass == m.domainClass
            && n.attestors == m.attestors
            && n.status == (if n.id in f.cyclic then Status.FailureDomainCycle else m.status)
  {
    hide *;
    var order := KeyOrder(resources.Keys);
    var plain := NodesOf(admissions, resources, order);
    var i := PlainNode(admissions, resources, n);
    NodeAt(admissions, resources, order, plain[i]);
    NodesAreDistinct(admissions, resources, order);
    ParentsAt(plain);
    ResolvedStatus(Parents(plain), plain[i]);
  }

  lemma PlainNode(admissions: Admissions, resources: Resources, n: FailureDomainNode) returns (i: nat)
    requires n in ForestOf(admissions, resources).nodes
    ensures var plain := NodesOf(admissions, resources, KeyOrder(resources.Keys));
            && i < |plain| && plain[i] in plain && n == ResolvedNode(Parents(plain), plain[i])
            && ForestOf(admissions, resources).cyclic == CyclicIds(Parents(plain))
  {
    hide NodesOf, Parents, ForestStatus, DanglingIn, CyclicIds, ResolvedNode;
    var plain := NodesOf(admissions, resources, KeyOrder(resources.Keys));
    i :| 0 <= i < |plain| && ForestOf(admissions, resources).nodes[i] == n;
  }

  lemma ResolvedStatus(p: ParentMap, node: FailureDomainNode)
    requires node.id in p
    ensures var r := ResolvedNode(p, node);
            && r.domainClass == node.domainClass && r.attestors == node.attestors
            && r.status == (if node.id in CyclicIds(p) then Status.FailureDomainCycle else node.status)
  {
  }

  // ----- Statuses -------------------------------------------------------------

  /** The parent of the node is declared by nobody. */
  predicate IsDangling(resources: Resources, n: FailureDomainNode) {
    n.parent.Some? && ResourceKey(FailureDomainKind, n.parent.value) !in resources
  }

  /** A status attribution gives to a failure domain. */
  predicate Settled(s: Status) { s == Status.Ok || s == Status.OwnershipOverlap || s == Status.NoAuthoritativeSource }

  /** What the status of a node stands for: a cycle comes before an unknown class, that
      before a parent nobody declares, that before too many members, and that before what
      the resource itself is. */
  lemma NodeStatusIff(admissions: Admissions, resources: Resources, n: FailureDomainNode)
    requires n in ForestOf(admissions, resources).nodes
    requires DomainKey(n.id) in resources ==> Settled(resources[DomainKey(n.id)].status)
    ensures DomainKey(n.id) in resources
    ensures var f, r := ForestOf(admissions, resources), resources[DomainKey(n.id)];
            var many := |AttestedMembers(admissions, r.attestations, n.id)| > MAX_RESOURCE_MEMBERS;
            var cyclic, unclassified, dangling := n.id in f.cyclic, n.domainClass == UnknownClass, IsDangling(resources, n);
            && (n.status == Status.FailureDomainCycle <==> cyclic)
            && (n.status == Status.FailureDomainDanglingParent <==> !cyclic && !unclassified && dangling)
            && (n.status == Status.LimitExceeded <==> !cyclic && !unclassified && !dangling && many)
            && (n.status == Status.FailureDomainConflict <==>
                  !cyclic && (unclassified || (!dangling && !many && r.status == Status.OwnershipOverlap)))
            && (n.status == Status.NoAuthoritativeSource <==>
                  !cyclic && !unclassified && !dangling && !many && r.status == Status.NoAuthoritativeSource)
            && (n.status == Status.Ok <==> !cyclic && !unclassified && !dangling && !many && r.status == Status.Ok)
  {
    hide *;
    ResolvedNodeIs(admissions, resources, n);
    NodeParts(admissions, resources, n.id);
    PlainStatusIff(admissions, resources, n.id);
    StatusWithCycle(resources, n, NodeOf(admissions, resources, DomainKey(n.id)));
  }

  lemma PlainStatusIff(admissions: Admissions, resources: Resources, id: Text)
    requires DomainKey(id) in resources && Settled(resources[DomainKey(id)].status)
    ensures var n, r := NodeOf(admissions, resources, DomainKey(id)), resources[DomainKey(id)];
            var many := |AttestedMembers(admissions, r.attestations, id)| > MAX_RESOURCE_MEMBERS;
            var unclassified, dangling := n.domainClass == UnknownClass, IsDangling(resources, n);
            && n.status != Status.FailureDomainCycle
            && (n.status == Status.FailureDomainDanglingParent <==> !unclassified && dangling)
            && (n.status == Status.LimitExceeded <==> !unclassified && !dangling && many)
            && (n.status == Status.FailureDomainConflict <==>
                  unclassified || (!dangling && !many && r.status == Status.OwnershipOverlap))
            && (n.status == Status.NoAuthoritativeSource <==>
                  !unclassified && !dangling && !many && r.status == Status.NoAuthoritativeSource)
            && (n.status == Status.Ok <==> !unclassified && !dangling && !many && r.status == Status.Ok)
  {
    hide AttestedMembers, Bounded, ClassOf, ParentOf;
  }

  /** The status changes for a cycle only. */
  lemma StatusWithCycle(resources: Resources, n: FailureDomainNode, m: FailureDomainNode)
    requires n.parent == m.parent
    ensures IsDangling(resources, n) <==> IsDangling(resources, m)
  {
  }

  /** What the status of the forest stands for. */
  lemma ForestStatusIff(admissions: Admissions, resources: Resources)
    ensures var f := ForestOf(admissions, resources);
            var conflict := exists n :: n in f.nodes && n.status == Status.FailureDomainConflict;
            var unsourced := exists n :: n in f.nodes && n.status == Status.NoAuthoritativeSource;
            && (f.status == Status.FailureDomainCycle <==> f.cyclic != {})
            && (f.status == Status.FailureDomainDanglingParent <==> f.cyclic == {} && f.dangling != {})
            && (f.status == Status.FailureDomainConflict <==> f.cyclic == {} && f.dangling == {} && conflict)
            && (f.status == Status.NoAuthoritativeSource <==> f.cyclic == {} && f.dangling == {} && !conflict && unsourced)
            && (f.status == Status.Ok <==> f.cyclic == {} && f.dangling == {} && !conflict && !unsourced)
            && forall id :: id in f.dangling <==>
                 DomainKey(id) in resources && ParentOf(resources[DomainKey(id)]).Some?
                 && ResourceKey(FailureDomainKind, ParentOf(resources[DomainKey(id)]).value) !in resources
  {
    var f := ForestOf(admissions, resources);
    ForestStatusIs(admissions, resources);
    DanglingIs(admissions, resources);
    hide ForestOf, ParentOf, DanglingIn;
    SomeNodeIff(f.nodes, Status.FailureDomainConflict);
    SomeNodeIff(f.nodes, Status.NoAuthoritativeSource);
    forall id ensures id in f.dangling <==> DomainKey(id) in resources && Dangles(resources, resources[DomainKey(id)]) {
      DanglingAt(resources, KeyOrder(resources.Keys), id);
    }
    hide SomeNode;
  }

  lemma DanglingIs(admissions: Admissions, resources: Resources)
    ensures ForestOf(admissions, resources).dangling == DanglingIn(resources, KeyOrder(resources.Keys))
  {
    hide NodesOf, DanglingIn, Parents, CyclicIds, ForestStatus;
  }

  lemma SomeNodeIff(nodes: seq<FailureDomainNode>, status: Status)
    ensures SomeNode(nodes, status) <==> exists n :: n in nodes && n.status == status
  {
    if i :| 0 <= i < |nodes| && nodes[i].status == status { assert nodes[i] in nodes; }
    if n :| n in nodes && n.status == status { var i :| 0 <= i < |nodes| && nodes[i] == n; }
  }
}
