/** Maintenance zones: what a zone covers, which obligations refuse it, and what
    it takes out of the available capacity. */
module Maintenance {
  import opened Model
  import opened Attribution
  import opened Forest
  import opened FailureDomains
  import opened Ledger

  datatype MaintenanceEffect = MaintenanceEffect(
    zoneState: MaintenanceState, status: Status, overlapping: set<Text>, excluded: set<ResourceKey>)

  /** The claim a record points to for one of the nine lists. */
  function Pointer(r: ResourceRecord, list: nat): (c: Option<Claim>)
    ensures c.Some? ==> c.value.List() == list
  {
    if r.Has(list) && r.pointers[list].List() == list then Some(r.pointers[list]) else None
  }

  predicate IsZone(key: ResourceKey, r: ResourceRecord) { key.kind == MaintenanceZoneKind && Pointer(r, 7).Some? }

  predicate IsObligation(key: ResourceKey, r: ResourceRecord) {
    key.kind == ObligationKindOfResource && Pointer(r, 8).Some?
  }

  // ----- What a zone covers -------------------------------------------------

  function DirectMembers(nodes: seq<FailureDomainNode>, domain: Text): set<ResourceKey> {
    if nodes == [] then {}
    else
      var n := nodes[|nodes| - 1];
      DirectMembers(nodes[..|nodes| - 1], domain) + (if n.id == domain then n.members else {})
  }

  function InheritedMembers(nodes: seq<FailureDomainNode>, domain: Text): set<ResourceKey> {
    if nodes == [] then {}
    else
      var n := nodes[|nodes| - 1];
      InheritedMembers(nodes[..|nodes| - 1], domain) + (if domain in n.ancestors then n.members else {})
  }

  function MembersUnder(nodes: seq<FailureDomainNode>, domains: seq<Text>): set<ResourceKey> {
    if domains == [] then {}
    else
      var d := domains[|domains| - 1];
      MembersUnder(nodes, domains[..|domains| - 1]) + DirectMembers(nodes, d) + InheritedMembers(nodes, d)
  }

  function ZoneScope(nodes: seq<FailureDomainNode>, zone: Claim): set<ResourceKey>
    requires zone.ZoneClaim?
  {
    Elements(zone.resources) + MembersUnder(nodes, zone.domains)
  }

  /** The node is one of the domains, or one of them is above it. */
  ghost predicate Under(n: FailureDomainNode, domains: seq<Text>) {
    exists d :: d in domains && (n.id == d || d in n.ancestors)
  }

  lemma {:induction false} DirectAt(nodes: seq<FailureDomainNode>, domain: Text, key: ResourceKey)
    ensures key in DirectMembers(nodes, domain) <==> exists n :: n in nodes && n.id == domain && key in n.members
  {
    if nodes != [] {
      var front, last := nodes[..|nodes| - 1], nodes[|nodes| - 1];
      assert nodes == front + [last];
      DirectAt(front, domain, key);
      assert last in nodes;
    }
  }

  lemma {:induction false} InheritedAt(nodes: seq<FailureDomainNode>, domain: Text, key: ResourceKey)
    ensures key in InheritedMembers(nodes, domain) <==> exists n :: n in nodes && domain in n.ancestors && key in n.members
  {
    if nodes != [] {
      var front, last := nodes[..|nodes| - 1], nodes[|nodes| - 1];
      assert nodes == front + [last];
      InheritedAt(front, domain, key);
      assert last in nodes;
    }
  }

  lemma {:induction false} MembersUnderAt(nodes: seq<FailureDomainNode>, domains: seq<Text>, key: ResourceKey)
    ensures key in MembersUnder(nodes, domains) <==> exists n :: n in nodes && Under(n, domains) && key in n.members
  {
    if domains != [] {
      var front, d := domains[..|domains| - 1], domains[|domains| - 1];
      assert domains == front + [d];
      MembersUnderAt(nodes, front, key);
      DirectAt(nodes, d, key);
      InheritedAt(nodes, d, key);
      forall n ensures Under(n, domains) <==> Under(n, front) || n.id == d || d in n.ancestors { UnderMore(n, front, d); }
      hide Under, DirectMembers, InheritedMembers;
    }
  }

  lemma UnderMore(n: FailureDomainNode, front: seq<Text>, d: Text)
    ensures Under(n, front + [d]) <==> Under(n, front) || n.id == d || d in n.ancestors
  {
    var domains := front + [d];
    assert d in domains;
    if Under(n, front) {
      var x :| x in front && (n.id == x || x in n.ancestors);
      assert x in domains;
    }
    if Under(n, domains) {
      var x :| x in domains && (n.id == x || x in n.ancestors);
      assert x == d || x in front;
    }
  }

  /** A zone covers exactly the resources it names and the members of every
      domain it names and of every domain below one of those. */
  lemma ZoneScopeIff(nodes: seq<FailureDomainNode>, zone: Claim, key: ResourceKey)
    requires zone.ZoneClaim?
    ensures key in ZoneScope(nodes, zone) <==>
      key in zone.resources || exists n :: n in nodes && Under(n, zone.domains) && key in n.members
  {
    MembersUnderAt(nodes, zone.domains, key);
  }

  /** Coverage is closed downwards: what lies below a covered domain is covered. */
  lemma ScopeIsDownwardClosed(plain: seq<FailureDomainNode>, zone: Claim, upper: FailureDomainNode,
      lower: FailureDomainNode)
    requires zone.ZoneClaim? && DistinctIds(plain)
    requires var nodes := Resolved(Parents(plain), plain);
             upper in nodes && lower in nodes && Under(upper, zone.domains) && upper.id in lower.ancestors
    ensures var nodes := Resolved(Parents(plain), plain);
            Under(lower, zone.domains) && lower.members <= ZoneScope(nodes, zone)
  {
    var p := Parents(plain);
    var nodes := Resolved(p, plain);
    ParentsAt(plain);
    hide Parents, AncestorsOf, ZoneScope;
    var i :| 0 <= i < |nodes| && nodes[i] == upper;
    var j :| 0 <= j < |nodes| && nodes[j] == lower;
    assert upper.ancestors == AncestorsOf(p, upper.id) && lower.ancestors == AncestorsOf(p, lower.id);
    var d :| d in zone.domains && (upper.id == d || d in upper.ancestors);
    AncestryIsAStrictOrder(p, lower.id, upper.id, d);
    assert d in lower.ancestors;
    forall key | key in lower.members ensures key in ZoneScope(nodes, zone) { ZoneScopeIff(nodes, zone, key); }
  }

  // ----- Obligations in the way ---------------------------------------------

  /** A protected obligation stands in the way of a zone that covers its
      resource, names its domain or one above it, or covers its domain. */
  predicate Overlaps(o: Claim, zone: Claim, scope: set<ResourceKey>, nodes: seq<FailureDomainNode>)
    requires o.ObligationClaim? && zone.ZoneClaim?
  {
    && o.isProtected
    && (|| (o.scopeResource.Some? && o.scopeResource.value in scope)
        || (o.scopeDomain.Some? &&
             (|| o.scopeDomain.value in zone.domains
              || DomainKey(o.scopeDomain.value) in scope
              || NodeUnder(nodes, o.scopeDomain.value, zone.domains))))
  }

  predicate NodeUnder(nodes: seq<FailureDomainNode>, id: Text, domains: seq<Text>) {
    exists i | 0 <= i < |nodes| :: nodes[i].id == id && AnyIn(domains, nodes[i].ancestors)
  }

  predicate AnyIn(a: seq<Text>, b: seq<Text>) { exists i | 0 <= i < |a| :: a[i] in b }

  /** The identities of the attributed obligations that stand in the way. */
  function Blockers(resources: Resources, order: seq<ResourceKey>, zone: Claim, scope: set<ResourceKey>,
      nodes: seq<FailureDomainNode>): set<Text>
    requires zone.ZoneClaim? && forall k | k in order :: k in resources
  {
    if order == [] then {}
    else
      var front, k := order[..|order| - 1], order[|order| - 1];
      assert order == front + [k];
      Blockers(resources, front, zone, scope, nodes)
      + (if Blocks(k, resources[k], zone, scope, nodes) then {Pointer(resources[k], 8).value.id} else {})
  }

  predicate Blocks(k: ResourceKey, r: ResourceRecord, zone: Claim, scope: set<ResourceKey>,
      nodes: seq<FailureDomainNode>)
    requires zone.ZoneClaim?
  {
    IsObligation(k, r) && r.status == Status.Ok && Overlaps(Pointer(r, 8).value, zone, scope, nodes)
  }

  lemma {:induction false} BlockersAt(resources: Resources, order: seq<ResourceKey>, zone: Claim,
      scope: set<ResourceKey>, nodes: seq<FailureDomainNode>)
    requires zone.ZoneClaim? && forall k | k in order :: k in resources
    ensures Blockers(resources, order, zone, scope, nodes) == {} <==>
      forall k | k in order :: !Blocks(k, resources[k], zone, scope, nodes)
  {
    hide Overlaps;
    if order != [] {
      var front, k := order[..|order| - 1], order[|order| - 1];
      assert order == front + [k];
      BlockersAt(resources, front, zone, scope, nodes);
      assert k in order;
      if Blocks(k, resources[k], zone, scope, nodes) {
        assert Pointer(resources[k], 8).value.id in Blockers(resources, order, zone, scope, nodes);
      }
    }
  }

  // ----- Effects ------------------------------------------------------------

  function ScopeFor(r: ResourceRecord, nodes: seq<FailureDomainNode>): set<ResourceKey>
    requires Pointer(r, 7).Some?
  {
    if r.status == Status.Ok then ZoneScope(nodes, Pointer(r, 7).value) else {}
  }

  function EffectOf(resources: Resources, nodes: seq<FailureDomainNode>, key: ResourceKey): MaintenanceEffect
    requires key in resources && IsZone(key, resources[key])
  {
    var r := resources[key];
    var zone := Pointer(r, 7).value;
    if r.status != Status.Ok then MaintenanceEffect(zone.zoneState, r.status, {}, {})
    else
      var scope := ScopeFor(r, nodes);
      var blockers := Blockers(resources, KeyOrder(resources.Keys), zone, scope, nodes);
      if blockers != {} then MaintenanceEffect(zone.zoneState, Status.MaintenanceConflict, blockers, {})
      else if zone.zoneState == UnknownMaintenance then
        MaintenanceEffect(zone.zoneState, Status.MaintenanceUnknown, {}, scope)
      else MaintenanceEffect(zone.zoneState, Status.Ok, {}, if zone.zoneState == Active then scope else {})
  }

  type Effects = map<ResourceKey, MaintenanceEffect>

  function EffectsOf(resources: Resources, nodes: seq<FailureDomainNode>): (e: Effects)
    ensures forall k :: k in e <==> k in resources && IsZone(k, resources[k])
    ensures forall k | k in e :: e[k] == EffectOf(resources, nodes, k)
  {
    map k | k in resources && IsZone(k, resources[k]) :: EffectOf(resources, nodes, k)
  }

  predicate Excludes(e: MaintenanceEffect) {
    !e.status.MaintenanceConflict? && (e.zoneState == Active || e.status.MaintenanceUnknown?)
  }

  /** Everything maintenance takes out of the available capacity. */
  function ExcludedBy(effects: Effects, order: seq<ResourceKey>): set<ResourceKey>
    requires forall k | k in order :: k in effects
  {
    if order == [] then {}
    else
      var front, k := order[..|order| - 1], order[|order| - 1];
      assert order == front + [k];
      ExcludedBy(effects, front) + (if Excludes(effects[k]) then effects[k].excluded else {})
  }

  function Excluded(effects: Effects): set<ResourceKey> { ExcludedBy(effects, KeyOrder(effects.Keys)) }

  lemma {:induction false} ExcludedByAt(effects: Effects, order: seq<ResourceKey>, key: ResourceKey)
    requires forall k | k in order :: k in effects
    ensures key in ExcludedBy(effects, order) <==> exists k :: k in order && Excludes(effects[k]) && key in effects[k].excluded
  {
    if order != [] {
      var front, k := order[..|order| - 1], order[|order| - 1];
      assert order == front + [k];
      ExcludedByAt(effects, front, key);
      assert k in order;
    }
  }

  predicate SomeZoneUnknown(effects: Effects) { exists k | k in effects :: effects[k].status.MaintenanceUnknown? }

  function ZoneConflicts(before: seq<Conflict>, resources: Resources, effects: Effects,
      order: seq<ResourceKey>): (r: seq<Conflict>)
    requires forall k | k in order :: k in effects && k in resources
    ensures before <= r
    ensures r == [] ==> before == [] && forall k | k in order :: effects[k].status != Status.MaintenanceConflict
  {
    if order == [] then before
    else
      var front, k := order[..|order| - 1], order[|order| - 1];
      assert order == front + [k];
      var c := ZoneConflicts(before, resources, effects, front);
      if effects[k].status == Status.MaintenanceConflict then
        AddConflict(c, Conflict(Status.MaintenanceConflict, k, Attestors(resources[k])))
      else c
  }

  // ----- What is excluded ---------------------------------------------------

  /** No attributed protected obligation is in the way of the zone. */
  ghost predicate Unopposed(resources: Resources, nodes: seq<FailureDomainNode>, zone: Claim)
    requires zone.ZoneClaim?
  {
    forall o | o in resources :: !Blocks(o, resources[o], zone, ZoneScope(nodes, zone), nodes)
  }

  /** An attributed, unopposed zone that is active, or of a state nobody reported,
      covers the resource. */
  ghost predicate HoldsBack(resources: Resources, nodes: seq<FailureDomainNode>, z: ResourceKey, key: ResourceKey) {
    && z in resources && IsZone(z, resources[z]) && resources[z].status == Status.Ok
    && var zone := Pointer(resources[z], 7).value;
       && (zone.zoneState == Active || zone.zoneState == UnknownMaintenance)
       && Unopposed(resources, nodes, zone) && key in ZoneScope(nodes, zone)
  }

  lemma EffectIff(resources: Resources, nodes: seq<FailureDomainNode>, z: ResourceKey, key: ResourceKey,
      e: MaintenanceEffect)
    requires z in resources && IsZone(z, resources[z]) && e == EffectOf(resources, nodes, z)
    ensures Excludes(e) && key in e.excluded <==> HoldsBack(resources, nodes, z, key)
  {
    hide Blockers, ZoneScope, Blocks;
    var r := resources[z];
    if r.status == Status.Ok {
      BlockersAt(resources, KeyOrder(resources.Keys), Pointer(r, 7).value, ScopeFor(r, nodes), nodes);
    }
  }

  lemma HoldingZone(resources: Resources, nodes: seq<FailureDomainNode>, z: ResourceKey, key: ResourceKey)
    requires HoldsBack(resources, nodes, z, key)
    ensures z in resources && IsZone(z, resources[z])
  {
  }

  /** A resource is excluded exactly when some zone holds it back. */
  lemma ExcludedIff(resources: Resources, nodes: seq<FailureDomainNode>, key: ResourceKey)
    ensures key in Excluded(EffectsOf(resources, nodes)) <==> exists z :: HoldsBack(resources, nodes, z, key)
  {
    hide EffectOf, Excludes, ExcludedBy, HoldsBack;
    var effects := EffectsOf(resources, nodes);
    ExcludedByAt(effects, KeyOrder(effects.Keys), key);
    forall z | z in effects ensures Excludes(effects[z]) && key in effects[z].excluded <==> HoldsBack(resources, nodes, z, key) {
      EffectIff(resources, nodes, z, key, effects[z]);
    }
    forall z | HoldsBack(resources, nodes, z, key) ensures z in effects { HoldingZone(resources, nodes, z, key); }
  }

  // ----- Protection ---------------------------------------------------------

  /** The resource of an attributed, protected obligation is never excluded. */
  lemma ProtectedIsNeverExcluded(resources: Resources, nodes: seq<FailureDomainNode>, o: ResourceKey, key: ResourceKey)
    requires o in resources && IsObligation(o, resources[o]) && resources[o].status == Status.Ok
    requires var claim := Pointer(resources[o], 8).value; claim.isProtected && claim.scopeResource == Some(key)
    ensures key !in Excluded(EffectsOf(resources, nodes))
  {
    var effects := EffectsOf(resources, nodes);
    hide EffectOf, EffectsOf, Excludes, ExcludedBy;
    ExcludedByAt(effects, KeyOrder(effects.Keys), key);
    forall z | z in effects ensures !(Excludes(effects[z]) && key in effects[z].excluded) {
      ProtectedFromZone(resources, nodes, o, key, z);
    }
  }

  lemma ProtectedFromZone(resources: Resources, nodes: seq<FailureDomainNode>, o: ResourceKey, key: ResourceKey,
      z: ResourceKey)
    requires o in resources && IsObligation(o, resources[o]) && resources[o].status == Status.Ok
    requires var claim := Pointer(resources[o], 8).value; claim.isProtected && claim.scopeResource == Some(key)
    requires z in resources && IsZone(z, resources[z])
    ensures var e := EffectOf(resources, nodes, z); !(Excludes(e) && key in e.excluded)
  {
    hide Blockers, ZoneScope;
    var r := resources[z];
    if r.status == Status.Ok {
      BlockersAt(resources, KeyOrder(resources.Keys), Pointer(r, 7).value, ScopeFor(r, nodes), nodes);
      assert o in KeyOrder(resources.Keys);
    }
  }

  /** The zone names the domain, or a declared domain above it. */
  ghost predicate NamedOver(domain: Text, zone: Claim, nodes: seq<FailureDomainNode>)
    requires zone.ZoneClaim?
  {
    domain in zone.domains || exists n :: n in nodes && n.id == domain && Under(n, zone.domains)
  }

  /** A zone that names the domain of an attributed, protected obligation, whether
      anybody declared it or not, or a domain above it, is refused and excludes
      nothing. */
  lemma ZoneOverItsDomainIsRefused(resources: Resources, nodes: seq<FailureDomainNode>, o: ResourceKey, z: ResourceKey)
    requires o in resources && IsObligation(o, resources[o]) && resources[o].status == Status.Ok
    requires z in resources && IsZone(z, resources[z]) && resources[z].status == Status.Ok
    requires var claim := Pointer(resources[o], 8).value;
             claim.isProtected && claim.scopeDomain.Some? && NamedOver(claim.scopeDomain.value, Pointer(resources[z], 7).value, nodes)
    ensures var e := EffectsOf(resources, nodes)[z];
            e.status == Status.MaintenanceConflict && e.excluded == {} && !Excludes(e)
  {
    hide Blockers, ZoneScope, NamedOver, NodeUnder;
    var r := resources[z];
    var claim, zone := Pointer(resources[o], 8).value, Pointer(r, 7).value;
    BlockersAt(resources, KeyOrder(resources.Keys), zone, ScopeFor(r, nodes), nodes);
    assert o in KeyOrder(resources.Keys);
    NamedIsFound(claim.scopeDomain.value, zone, nodes);
  }

  lemma NamedIsFound(domain: Text, zone: Claim, nodes: seq<FailureDomainNode>)
    requires zone.ZoneClaim? && NamedOver(domain, zone, nodes)
    ensures domain in zone.domains || NodeUnder(nodes, domain, zone.domains)
  {
    if domain !in zone.domains {
      var n :| n in nodes && n.id == domain && Under(n, zone.domains);
      var i :| 0 <= i < |nodes| && nodes[i] == n;
      var d :| d in zone.domains && (n.id == d || d in n.ancestors);
      var j :| 0 <= j < |zone.domains| && zone.domains[j] == d;
      assert AnyIn(zone.domains, nodes[i].ancestors);
    }
  }

  // ----- What a zone does -----------------------------------------------------

  /** The protected obligation is about something the zone covers: its resource, its
      domain, a domain above that one, or the domain as a member of another. */
  ghost predicate InTheWay(o: Claim, zone: Claim, nodes: seq<FailureDomainNode>)
    requires o.ObligationClaim? && zone.ZoneClaim?
  {
    && o.isProtected
    && (|| (o.scopeResource.Some? && o.scopeResource.value in ZoneScope(nodes, zone))
        || (o.scopeDomain.Some?
            && (|| o.scopeDomain.value in zone.domains
                || ResourceKey(FailureDomainKind, o.scopeDomain.value) in ZoneScope(nodes, zone)
                || exists n :: n in nodes && n.id == o.scopeDomain.value && exists a :: a in n.ancestors && a in zone.domains)))
  }

  /** An attributed obligation is in the way of the zone. */
  ghost predicate Opposes(resources: Resources, nodes: seq<FailureDomainNode>, zone: Claim, k: ResourceKey)
    requires zone.ZoneClaim?
  {
    && k in resources && k.kind == ObligationKindOfResource && resources[k].status == Status.Ok
    && Pointer(resources[k], 8).Some? && InTheWay(Pointer(resources[k], 8).value, zone, nodes)
  }

  lemma OverlapsIff(o: Claim, zone: Claim, nodes: seq<FailureDomainNode>)
    requires o.ObligationClaim? && zone.ZoneClaim?
    ensures Overlaps(o, zone, ZoneScope(nodes, zone), nodes) <==> InTheWay(o, zone, nodes)
  {
    hide ZoneScope;
    if o.scopeDomain.Some? { NodeUnderIff(nodes, o.scopeDomain.value, zone.domains); }
    hide NodeUnder;
  }

  lemma NodeUnderIff(nodes: seq<FailureDomainNode>, id: Text, domains: seq<Text>)
    ensures NodeUnder(nodes, id, domains) <==>
      exists n :: n in nodes && n.id == id && exists a :: a in n.ancestors && a in domains
  {
    if i :| 0 <= i < |nodes| && nodes[i].id == id && AnyIn(domains, nodes[i].ancestors) {
      assert nodes[i] in nodes;
      var j :| 0 <= j < |domains| && domains[j] in nodes[i].ancestors;
      assert domains[j] in domains;
    }
    if n :| n in nodes && n.id == id && exists a :: a in n.ancestors && a in domains {
      var i :| 0 <= i < |nodes| && nodes[i] == n;
      var a :| a in n.ancestors && a in domains;
      var j :| 0 <= j < |domains| && domains[j] == a;
      assert AnyIn(domains, nodes[i].ancestors);
    }
  }

  /** What a zone does: nothing but to carry its status while it is not attributed;
      otherwise it is refused exactly when an attributed protected obligation is in the
      way, and a refused zone excludes nothing; one that is not refused excludes what it
      covers when it is active, or when nobody reported its state, which is then said. */
  lemma ZoneDoes(resources: Resources, nodes: seq<FailureDomainNode>, z: ResourceKey)
    requires z in EffectsOf(resources, nodes)
    ensures z in resources && Pointer(resources[z], 7).Some?
    ensures var e, zone := EffectsOf(resources, nodes)[z], Pointer(resources[z], 7).value;
            var attributed, opposed := resources[z].status == Status.Ok, exists k :: Opposes(resources, nodes, zone, k);
            && e.zoneState == zone.zoneState
            && (!attributed ==> e.status == resources[z].status && e.excluded == {})
            && (attributed ==>
                 && (e.status == Status.MaintenanceConflict <==> opposed)
                 && (e.status == Status.MaintenanceUnknown <==> !opposed && zone.zoneState == UnknownMaintenance)
                 && (e.status == Status.Ok <==> !opposed && zone.zoneState != UnknownMaintenance)
                 && e.excluded == (if !opposed && (zone.zoneState == Active || zone.zoneState == UnknownMaintenance)
                                   then ZoneScope(nodes, zone) else {}))
  {
    hide EffectOf, Blockers, ZoneScope, Opposes, KeyOrder;
    EffectIs(resources, nodes, z);
    OpposedIff(resources, nodes, Pointer(resources[z], 7).value);
  }

  lemma EffectIs(resources: Resources, nodes: seq<FailureDomainNode>, z: ResourceKey)
    requires z in resources && IsZone(z, resources[z])
    ensures var e, zone := EffectOf(resources, nodes, z), Pointer(resources[z], 7).value;
            var blocked := Blockers(resources, KeyOrder(resources.Keys), zone, ZoneScope(nodes, zone), nodes) != {};
            && e.zoneState == zone.zoneState
            && (resources[z].status != Status.Ok ==> e.status == resources[z].status && e.excluded == {})
            && (resources[z].status == Status.Ok ==>
                 && e.status == (if blocked then Status.MaintenanceConflict
                                 else if zone.zoneState == UnknownMaintenance then Status.MaintenanceUnknown else Status.Ok)
                 && e.excluded == (if !blocked && (zone.zoneState == Active || zone.zoneState == UnknownMaintenance)
                                   then ZoneScope(nodes, zone) else {}))
  {
    hide Blockers, ZoneScope, KeyOrder;
  }

  lemma OpposedIff(resources: Resources, nodes: seq<FailureDomainNode>, zone: Claim)
    requires zone.ZoneClaim?
    ensures Blockers(resources, KeyOrder(resources.Keys), zone, ZoneScope(nodes, zone), nodes) != {} <==>
      exists k :: Opposes(resources, nodes, zone, k)
  {
    hide Blockers, ZoneScope, Overlaps, InTheWay;
    BlockersAt(resources, KeyOrder(resources.Keys), zone, ZoneScope(nodes, zone), nodes);
    forall k | k in resources ensures Blocks(k, resources[k], zone, ZoneScope(nodes, zone), nodes) <==> Opposes(resources, nodes, zone, k) {
      if Pointer(resources[k], 8).Some? { OverlapsIff(Pointer(resources[k], 8).value, zone, nodes); }
    }
    hide Blocks, Opposes;
    assert forall k :: k in KeyOrder(resources.Keys) <==> k in resources;
  }

  // ----- What feeds the ledger ----------------------------------------------

  /** The capacity a resource contributes, its scope, and whether it is a link
      that leaves the site: a rack's, else a link's, else a gateway's, else a
      pool's. */
  datatype Contribution = Contribution(scope: CapacityScope, external: bool, capacity: CapacityVector)

  function ContributionOf(r: ResourceRecord): Option<Contribution> {
    if Pointer(r, 2).Some? then Some(Contribution(RackLocal, false, Pointer(r, 2).value.capacity))
    else if Pointer(r, 3).Some? then
      Some(Contribution(SharedLinkScope, Pointer(r, 3).value.external, Pointer(r, 3).value.capacity))
    else if Pointer(r, 4).Some? then Some(Contribution(GatewayScope, true, Pointer(r, 4).value.capacity))
    else if Pointer(r, 5).Some? then Some(Contribution(Pointer(r, 5).value.scope, false, Pointer(r, 5).value.capacity))
    else None
  }

  /** What one claim by itself would contribute. */
  function Offer(c: Claim): Option<Contribution> {
    if c.RackClaim? then Some(Contribution(RackLocal, false, c.capacity))
    else if c.SharedLinkClaim? then Some(Contribution(SharedLinkScope, c.external, c.capacity))
    else if c.GatewayClaim? then Some(Contribution(GatewayScope, true, c.capacity))
    else if c.PoolClaim? then Some(Contribution(c.scope, false, c.capacity))
    else None
  }

  /** What a resource contributes is what one of the claims it points to offers, and
      it contributes as soon as it points to a claim that offers something. */
  lemma ContributionIsOffered(r: ResourceRecord)
    ensures ContributionOf(r).Some? <==> exists list :: 2 <= list <= 5 && Pointer(r, list).Some?
    ensures ContributionOf(r).Some? ==>
      exists list :: 2 <= list <= 5 && Pointer(r, list).Some? && Offer(Pointer(r, list).value) == ContributionOf(r)
  {
    hide Pointer;
    if Pointer(r, 2).Some? { assert Offer(Pointer(r, 2).value) == ContributionOf(r); }
    else if Pointer(r, 3).Some? { assert Offer(Pointer(r, 3).value) == ContributionOf(r); }
    else if Pointer(r, 4).Some? { assert Offer(Pointer(r, 4).value) == ContributionOf(r); }
    else if Pointer(r, 5).Some? { assert Offer(Pointer(r, 5).value) == ContributionOf(r); }
  }

  /** A resource contributes as the rack, else the link, else the gateway it is claimed to
      be, and as a pool only when it is claimed as none of them. */
  lemma ContributionIff(r: ResourceRecord)
    ensures var rack, link, gateway, pool := Pointer(r, 2), Pointer(r, 3), Pointer(r, 4), Pointer(r, 5);
            var c := ContributionOf(r);
            && (c.Some? <==> rack.Some? || link.Some? || gateway.Some? || pool.Some?)
            && (rack.Some? ==> c == Some(Contribution(RackLocal, false, rack.value.capacity)))
            && (rack.None? && link.Some? ==> c == Some(Contribution(SharedLinkScope, link.value.external, link.value.capacity)))
            && (rack.None? && link.None? && gateway.Some? ==> c == Some(Contribution(GatewayScope, true, gateway.value.capacity)))
            && (c.Some? && rack.None? && link.None? && gateway.None? ==>
                  c == Some(Contribution(pool.value.scope, false, pool.value.capacity)))
  {
    hide Pointer;
  }

  predicate SomeMaskedUnknown(mask: ChannelMask, capacity: CapacityVector) {
    || (mask.ingress && capacity.ingress.UnknownValue?)
    || (mask.egress && capacity.egress.UnknownValue?)
    || (mask.internal && capacity.internal.UnknownValue?)
  }

  function BuildOf(key: ResourceKey, r: ResourceRecord, c: Contribution): LedgerBuild {
    var mask := MaskFor(c.scope, c.external);
    if r.status != Status.Ok then
      LedgerBuild(key, c.scope, mask, c.capacity, Attestors(r),
        if r.status == Status.Unknown then Status.NoAuthoritativeSource else r.status, false)
    else if mask.FeedsNothing() then LedgerBuild(key, c.scope, mask, c.capacity, Attestors(r), Status.Unsupported, false)
    else
      LedgerBuild(key, c.scope, mask, c.capacity, Attestors(r),
        if SomeMaskedUnknown(mask, c.capacity) then Status.CapacityUnknown else Status.Ok, true)
  }

  function BuildsOf(resources: Resources, order: seq<ResourceKey>): seq<LedgerBuild>
    requires forall k | k in order :: k in resources
  {
    if order == [] then []
    else
      var front, k := order[..|order| - 1], order[|order| - 1];
      assert order == front + [k];
      var before := BuildsOf(resources, front);
      var c := ContributionOf(resources[k]);
      if c.Some? then before + [BuildOf(k, resources[k], c.value)] else before
  }

  /** A build counts exactly when its resource is attributed and its scope
      reaches the site. */
  lemma {:induction false} BuildsAt(resources: Resources, order: seq<ResourceKey>, b: LedgerBuild)
    requires forall k | k in order :: k in resources
    ensures b in BuildsOf(resources, order) <==>
      b.owner in order && ContributionOf(resources[b.owner]).Some?
      && b == BuildOf(b.owner, resources[b.owner], ContributionOf(resources[b.owner]).value)
  {
    hide ContributionOf;
    if order != [] {
      var front, k := order[..|order| - 1], order[|order| - 1];
      assert order == front + [k];
      BuildsAt(resources, front, b);
    }
  }

  function SiteLedger(resources: Resources, effects: Effects): CapacityLedger {
    LedgerOf(BuildsOf(resources, KeyOrder(resources.Keys)), Excluded(effects))
  }

  // ----- The loops ----------------------------------------------------------

  ghost predicate IsMemberMap(domainMembers: map<Text, set<ResourceKey>>, nodes: seq<FailureDomainNode>) {
    forall d :: DirectMembers(nodes, d) == (if d in domainMembers then domainMembers[d] else {})
  }

  method IndexMembers(nodes: seq<FailureDomainNode>) returns (domainMembers: map<Text, set<ResourceKey>>)
    requires DistinctIds(nodes)
    ensures IsMemberMap(domainMembers, nodes)
  {
    domainMembers := map[];
    for i := 0 to |nodes|
      invariant IsMemberMap(domainMembers, nodes[..i])
      invariant forall d :: d in domainMembers ==> exists k | 0 <= k < i :: nodes[k].id == d
    {
      assert nodes[..i + 1][..i] == nodes[..i];
      assert nodes[i].id !in domainMembers;
      domainMembers := domainMembers[nodes[i].id := nodes[i].members];
    }
    assert nodes[..|nodes|] == nodes;
  }

  method CollectZoneScope(zone: Claim, nodes: seq<FailureDomainNode>, domainMembers: map<Text, set<ResourceKey>>)
      returns (keys: set<ResourceKey>)
    requires zone.ZoneClaim? && IsMemberMap(domainMembers, nodes)
    ensures keys == ZoneScope(nodes, zone)
  {
    hide DirectMembers;
    ghost var named := Elements(zone.resources);
    keys := Elements(zone.resources);
    for i := 0 to |zone.domains|
      invariant keys == named + MembersUnder(nodes, zone.domains[..i])
    {
      var d := zone.domains[i];
      assert zone.domains[..i + 1][..i] == zone.domains[..i];
      if d in domainMembers { keys := keys + domainMembers[d]; }
      ghost var before := keys;
      for j := 0 to |nodes|
        invariant keys == before + InheritedMembers(nodes[..j], d)
      {
        assert nodes[..j + 1][..j] == nodes[..j];
        if d in nodes[j].ancestors { keys := keys + nodes[j].members; }
      }
      assert nodes[..|nodes|] == nodes;
    }
    assert zone.domains[..|zone.domains|] == zone.domains;
  }

  method ObligationOverlapsZone(o: Claim, zone: Claim, scope: set<ResourceKey>, nodes: seq<FailureDomainNode>)
      returns (overlaps: bool)
    requires o.ObligationClaim? && zone.ZoneClaim? && DistinctIds(nodes)
    ensures overlaps <==> Overlaps(o, zone, scope, nodes)
  {
    if !o.isProtected { return false; }
    if o.scopeResource.Some? && o.scopeResource.value in scope { return true; }
    if o.scopeDomain.None? { return false; }
    if o.scopeDomain.value in zone.domains { return true; }
    if DomainKey(o.scopeDomain.value) in scope { return true; }
    for i := 0 to |nodes|
      invariant forall k | 0 <= k < i :: nodes[k].id != o.scopeDomain.value
    {
      if nodes[i].id == o.scopeDomain.value {
        var found := false;
        for j := 0 to |zone.domains|
          invariant !found && !AnyIn(zone.domains[..j], nodes[i].ancestors)
        {
          if zone.domains[j] in nodes[i].ancestors { return true; }
        }
        assert zone.domains[..|zone.domains|] == zone.domains;
        return false;
      }
    }
    return false;
  }

  method FindBlockers(resources: Resources, zone: Claim, scope: set<ResourceKey>, nodes: seq<FailureDomainNode>)
      returns (blockers: set<Text>)
    requires zone.ZoneClaim? && DistinctIds(nodes)
    ensures blockers == Blockers(resources, KeyOrder(resources.Keys), zone, scope, nodes)
  {
    hide *;
    var order := KeyOrder(resources.Keys);
    blockers := {};
    NoBlockers(resources, zone, scope, nodes);
    for i := 0 to |order|
      invariant forall k | k in order[..i] :: k in resources
      invariant blockers == Blockers(resources, order[..i], zone, scope, nodes)
    {
      BlockersStep(resources, order, i, zone, scope, nodes);
      var found := BlockerAt(order[i], resources[order[i]], zone, scope, nodes);
      blockers := blockers + found;
    }
    assert order[..|order|] == order;
  }

  lemma NoBlockers(resources: Resources, zone: Claim, scope: set<ResourceKey>, nodes: seq<FailureDomainNode>)
    requires zone.ZoneClaim?
    ensures Blockers(resources, [], zone, scope, nodes) == {}
  {
  }

  function BlockerIds(k: ResourceKey, r: ResourceRecord, zone: Claim, scope: set<ResourceKey>,
      nodes: seq<FailureDomainNode>): set<Text>
    requires zone.ZoneClaim?
  {
    if Blocks(k, r, zone, scope, nodes) then {Pointer(r, 8).value.id} else {}
  }

  lemma BlockersStep(resources: Resources, order: seq<ResourceKey>, i: nat, zone: Claim, scope: set<ResourceKey>,
      nodes: seq<FailureDomainNode>)
    requires zone.ZoneClaim? && i < |order| && forall k | k in order :: k in resources
    ensures order[i] in resources && forall k | k in order[..i + 1] :: k in resources
    ensures Blockers(resources, order[..i + 1], zone, scope, nodes)
      == Blockers(resources, order[..i], zone, scope, nodes) + BlockerIds(order[i], resources[order[i]], zone, scope, nodes)
  {
    hide Overlaps;
    assert order[i] in order;
    assert order[..i + 1][..i] == order[..i];
  }

  method BlockerAt(key: ResourceKey, r: ResourceRecord, zone: Claim, scope: set<ResourceKey>,
      nodes: seq<FailureDomainNode>)
      returns (found: set<Text>)
    requires zone.ZoneClaim? && DistinctIds(nodes)
    ensures found == BlockerIds(key, r, zone, scope, nodes)
  {
    hide Overlaps, DistinctIds;
    if !IsObligation(key, r) || r.status != Status.Ok { return {}; }
    var overlaps := ObligationOverlapsZone(Pointer(r, 8).value, zone, scope, nodes);
    return if overlaps then {Pointer(r, 8).value.id} else {};
  }

  /** What one zone does; `refused` zones are reported as conflicts. */
  method BuildEffect(resources: Resources, nodes: seq<FailureDomainNode>, domainMembers: map<Text, set<ResourceKey>>,
      key: ResourceKey) returns (effect: MaintenanceEffect)
    requires key in resources && IsZone(key, resources[key])
    requires DistinctIds(nodes) && IsMemberMap(domainMembers, nodes)
    ensures effect == EffectOf(resources, nodes, key)
  {
    hide Blockers, ZoneScope, DistinctIds, IsMemberMap;
    var r := resources[key];
    var zone := Pointer(r, 7).value;
    effect := MaintenanceEffect(zone.zoneState, Status.Ok, {}, {});
    if r.status != Status.Ok { return effect.(status := r.status); }
    var scope := CollectZoneScope(zone, nodes, domainMembers);
    var blockers := FindBlockers(resources, zone, scope, nodes);
    effect := effect.(overlapping := blockers);
    if blockers != {} { return effect.(status := Status.MaintenanceConflict); }
    if zone.zoneState == UnknownMaintenance {
      return effect.(status := Status.MaintenanceUnknown, excluded := scope);
    }
    if zone.zoneState == Active { effect := effect.(excluded := scope); }
  }

  method BuildEffects(resources: Resources, nodes: seq<FailureDomainNode>) returns (effects: Effects)
    requires DistinctIds(nodes)
    ensures effects == EffectsOf(resources, nodes)
  {
    hide *;
    var domainMembers := IndexMembers(nodes);
    var order := KeyOrder(resources.Keys);
    effects := map[];
    for i := 0 to |order|
      invariant forall k :: k in effects <==> k in order[..i] && k in resources && IsZone(k, resources[k])
      invariant forall k | k in effects :: effects[k] == EffectOf(resources, nodes, k)
    {
      var key := order[i];
      assert order[..i + 1] == order[..i] + [key];
      assert key in order;
      if !IsZone(key, resources[key]) { continue; }
      var effect := BuildEffect(resources, nodes, domainMembers, key);
      effects := effects[key := effect];
    }
    assert order[..|order|] == order;
  }

  /** The excluded keys, whether some zone's state was never reported, and the
      refused zones as conflicts. */
  method FoldEffects(before: seq<Conflict>, resources: Resources, effects: Effects)
      returns (excluded: set<ResourceKey>, indeterminate: bool, conflicts: seq<Conflict>)
    requires forall k | k in effects :: k in resources
    ensures excluded == Excluded(effects) && indeterminate == SomeZoneUnknown(effects)
    ensures conflicts == ZoneConflicts(before, resources, effects, KeyOrder(effects.Keys))
  {
    hide ExcludedBy, ZoneConflicts, Excludes;
    var order := KeyOrder(effects.Keys);
    excluded, indeterminate, conflicts := {}, false, before;
    NothingFolded(before, resources, effects);
    for i := 0 to |order|
      invariant forall k | k in order[..i] :: k in effects && k in resources
      invariant excluded == ExcludedBy(effects, order[..i])
      invariant indeterminate <==> exists k :: k in order[..i] && effects[k].status.MaintenanceUnknown?
      invariant conflicts == ZoneConflicts(before, resources, effects, order[..i])
    {
      var key := order[i];
      FoldStep(before, resources, effects, order, i);
      excluded, conflicts := FoldOne(key, effects[key], resources[key], excluded, conflicts);
      if effects[key].status.MaintenanceUnknown? { indeterminate := true; }
    }
    assert order[..|order|] == order;
  }

  lemma NothingFolded(before: seq<Conflict>, resources: Resources, effects: Effects)
    ensures ExcludedBy(effects, []) == {} && ZoneConflicts(before, resources, effects, []) == before
  {
  }

  lemma FoldStep(before: seq<Conflict>, resources: Resources, effects: Effects, order: seq<ResourceKey>, i: nat)
    requires i < |order| && forall k | k in order :: k in effects && k in resources
    ensures order[i] in effects && order[i] in resources
    ensures forall k :: k in order[..i + 1] <==> k in order[..i] || k == order[i]
    ensures forall k | k in order[..i + 1] :: k in effects && k in resources
    ensures var e := effects[order[i]];
            && ExcludedBy(effects, order[..i + 1]) == ExcludedBy(effects, order[..i]) + (if Excludes(e) then e.excluded else {})
            && ZoneConflicts(before, resources, effects, order[..i + 1])
                 == (if e.status == Status.MaintenanceConflict then
                       AddConflict(ZoneConflicts(before, resources, effects, order[..i]),
                                   Conflict(Status.MaintenanceConflict, order[i], Attestors(resources[order[i]])))
                     else ZoneConflicts(before, resources, effects, order[..i]))
  {
    hide Excludes, AddConflict;
    assert order[i] in order;
    assert order[..i + 1] == order[..i] + [order[i]];
    assert order[..i + 1][..i] == order[..i];
  }

  method FoldOne(key: ResourceKey, effect: MaintenanceEffect, r: ResourceRecord, before: set<ResourceKey>,
      conflictsBefore: seq<Conflict>) returns (excluded: set<ResourceKey>, conflicts: seq<Conflict>)
    ensures excluded == before + (if Excludes(effect) then effect.excluded else {})
    ensures conflicts == if effect.status == Status.MaintenanceConflict
      then AddConflict(conflictsBefore, Conflict(Status.MaintenanceConflict, key, Attestors(r))) else conflictsBefore
  {
    excluded, conflicts := before, conflictsBefore;
    if effect.status.MaintenanceConflict? {
      conflicts := AddConflict(conflicts, Conflict(Status.MaintenanceConflict, key, Attestors(r)));
      return;
    }
    if effect.zoneState == Active || effect.status.MaintenanceUnknown? { excluded := excluded + effect.excluded; }
  }

  method CollectLedgerBuilds(resources: Resources) returns (builds: seq<LedgerBuild>)
    ensures builds == BuildsOf(resources, KeyOrder(resources.Keys))
  {
    hide BuildsOf, ContributionOf, BuildOf;
    var order := KeyOrder(resources.Keys);
    builds := [];
    NoBuilds(resources);
    for i := 0 to |order|
      invariant forall k | k in order[..i] :: k in resources
      invariant builds == BuildsOf(resources, order[..i])
    {
      var key := order[i];
      BuildsStep(resources, order, i);
      var r := resources[key];
      var c := ContributionOf(r);
      if c.None? { continue; }
      var build := BuildOne(key, r, c.value);
      builds := builds + [build];
    }
    assert order[..|order|] == order;
  }

  lemma NoBuilds(resources: Resources)
    ensures BuildsOf(resources, []) == []
  {
  }

  lemma BuildsStep(resources: Resources, order: seq<ResourceKey>, i: nat)
    requires i < |order| && forall k | k in order :: k in resources
    ensures order[i] in resources && forall k | k in order[..i + 1] :: k in resources
    ensures var c := ContributionOf(resources[order[i]]);
            BuildsOf(resources, order[..i + 1])
              == BuildsOf(resources, order[..i]) + (if c.Some? then [BuildOf(order[i], resources[order[i]], c.value)] else [])
  {
    hide ContributionOf, BuildOf;
    assert order[i] in order;
    assert order[..i + 1][..i] == order[..i];
  }

  method BuildOne(key: ResourceKey, r: ResourceRecord, c: Contribution) returns (build: LedgerBuild)
    ensures build == BuildOf(key, r, c)
  {
    var mask := MaskFor(c.scope, c.external);
    build := LedgerBuild(key, c.scope, mask, c.capacity, Attestors(r), Status.Unknown, false);
    if r.status != Status.Ok {
      return build.(status := if r.status == Status.Unknown then Status.NoAuthoritativeSource else r.status);
    }
    if mask.FeedsNothing() { return build.(status := Status.Unsupported); }
    var channelUnknown := SomeMaskedUnknown(mask, c.capacity);
    return build.(status := if channelUnknown then Status.CapacityUnknown else Status.Ok, counted := true);
  }
}
