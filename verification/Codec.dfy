/** The encodings of keys, evidence, capacity and the nine kinds of claim. A
    reader accepts exactly the encodings of well-formed values. */
module ClaimCodec {
  import opened Model
  import opened Canonical
  import Order

  // ----- Enumerations as codes ---------------------------------------------

  function DomainOf(n: u8): (k: DomainKind)
    requires n <= 4
    ensures Order.DomainCode(k) == n
  {
    if n == 0 then UnknownDomain else if n == 1 then ClusterDomain else if n == 2 then PodDomain
    else if n == 3 then RackDomain else SharedDomain
  }

  function ResourceOf(n: u8): (k: ResourceKind)
    requires n <= 9
    ensures Order.ResourceCode(k) == n
  {
    if n == 0 then UnknownResource else if n == 1 then ClusterKind else if n == 2 then PodKind
    else if n == 3 then RackKind else if n == 4 then SharedLinkKind else if n == 5 then GatewayKind
    else if n == 6 then CapacityPoolKind else if n == 7 then FailureDomainKind
    else if n == 8 then MaintenanceZoneKind else ObligationKindOfResource
  }

  function ProvenanceCode(p: Provenance): (n: u8)
    ensures n <= 6
  {
    match p case UnknownProvenance => 0 case Measured => 1 case Reported => 2 case Derived => 3
    case Estimated => 4 case Synthetic => 5 case Reconstructed => 6
  }

  function ProvenanceOf(n: u8): (p: Provenance)
    requires n <= 6
    ensures ProvenanceCode(p) == n
  {
    if n == 0 then UnknownProvenance else if n == 1 then Measured else if n == 2 then Reported
    else if n == 3 then Derived else if n == 4 then Estimated else if n == 5 then Synthetic else Reconstructed
  }

  function StateCode(s: ConnectivityState): (n: u8)
    ensures n <= 3
  {
    match s case UnknownState => 0 case Up => 1 case Down => 2 case DegradedState => 3
  }

  function StateOf(n: u8): (s: ConnectivityState)
    requires n <= 3
    ensures StateCode(s) == n
  {
    if n == 0 then UnknownState else if n == 1 then Up else if n == 2 then Down else DegradedState
  }

  function ScopeCode(s: CapacityScope): (n: u8)
    ensures n <= 8
  {
    match s case UnknownScope => 0 case SiteIngress => 1 case SiteEgress => 2 case SiteInternal => 3
    case RackLocal => 4 case PodLocal => 5 case ClusterLocal => 6 case SharedLinkScope => 7 case GatewayScope => 8
  }

  function ScopeOf(n: u8): (s: CapacityScope)
    requires n <= 8
    ensures ScopeCode(s) == n
  {
    if n == 0 then UnknownScope else if n == 1 then SiteIngress else if n == 2 then SiteEgress
    else if n == 3 then SiteInternal else if n == 4 then RackLocal else if n == 5 then PodLocal
    else if n == 6 then ClusterLocal else if n == 7 then SharedLinkScope else GatewayScope
  }

  function ClassCode(c: FailureDomainClass): (n: u8)
    ensures n <= 2
  {
    match c case UnknownClass => 0 case Physical => 1 case Administrative => 2
  }

  function ClassOf(n: u8): (c: FailureDomainClass)
    requires n <= 2
    ensures ClassCode(c) == n
  {
    if n == 0 then UnknownClass else if n == 1 then Physical else Administrative
  }

  function MaintenanceCode(s: MaintenanceState): (n: u8)
    ensures n <= 4
  {
    match s case UnknownMaintenance => 0 case Scheduled => 1 case Active => 2 case Complete => 3 case Cancelled => 4
  }

  function MaintenanceOf(n: u8): (s: MaintenanceState)
    requires n <= 4
    ensures MaintenanceCode(s) == n
  {
    if n == 0 then UnknownMaintenance else if n == 1 then Scheduled else if n == 2 then Active
    else if n == 3 then Complete else Cancelled
  }

  function ObligationCode(k: ObligationKind): (n: u8)
    ensures n <= 7
  {
    match k case UnknownObligation => 0 case MinIngress => 1 case MinEgress => 2 case MinInternal => 3
    case MinDistinctFailureDomains => 4 case MinUpSharedLinks => 5 case MinUpGateways => 6 case DomainSurvivability => 7
  }

  function ObligationOf(n: u8): (k: ObligationKind)
    requires n <= 7
    ensures ObligationCode(k) == n
  {
    if n == 0 then UnknownObligation else if n == 1 then MinIngress else if n == 2 then MinEgress
    else if n == 3 then MinInternal else if n == 4 then MinDistinctFailureDomains
    else if n == 5 then MinUpSharedLinks else if n == 6 then MinUpGateways else DomainSurvivability
  }

  /** Codes are read back as what they stand for. */
  lemma CodesReadBack()
    ensures forall k :: Order.DomainCode(k) <= 4 && DomainOf(Order.DomainCode(k)) == k
    ensures forall k :: Order.ResourceCode(k) <= 9 && ResourceOf(Order.ResourceCode(k)) == k
    ensures forall p :: ProvenanceOf(ProvenanceCode(p)) == p
    ensures forall s :: StateOf(StateCode(s)) == s
    ensures forall s :: ScopeOf(ScopeCode(s)) == s
    ensures forall c :: ClassOf(ClassCode(c)) == c
    ensures forall s :: MaintenanceOf(MaintenanceCode(s)) == s
    ensures forall k :: ObligationOf(ObligationCode(k)) == k
  {
  }

  // ----- Keys, evidence, capacity ------------------------------------------

  /** A key is well formed, or absent altogether. */
  predicate GoodDomain(k: MemberDomainKey) { k.Valid() || k == MemberDomainKey(UnknownDomain, []) }

  predicate GoodResource(k: ResourceKey) { k.Valid() || k == NO_SUBJECT }

  predicate GoodEvidence(e: Evidence) { e.ttl <= MAX_EVIDENCE_TTL_MS }

  predicate GoodValue(v: CapacityValue) { v.Known? ==> v.bps <= MAX_CAPACITY_BPS }

  predicate GoodCapacity(v: CapacityVector) { GoodValue(v.ingress) && GoodValue(v.egress) && GoodValue(v.internal) }

  function PutDomain(k: MemberDomainKey, rest: Bytes): Bytes { Put8(Order.DomainCode(k.kind), PutText(k.id, rest)) }

  function GetDomain(b: Bytes): (r: Parsed<MemberDomainKey>)
    ensures r.Got? ==> GoodDomain(r.value) && b == PutDomain(r.value, r.rest)
  {
    hide Put8, PutText, ValidIdentifier;
    var (kind, b1) :- Get8(b);
    if kind == 0 then
      var (id, b2) :- GetText(b1, MAX_IDENTIFIER_BYTES);
      if id == [] then Got(MemberDomainKey(UnknownDomain, []), b2) else Refused(Status.Malformed)
    else if kind > 4 then Refused(Status.Malformed)
    else
      var (id, b2) :- GetIdentifier(b1);
      Got(MemberDomainKey(DomainOf(kind), id), b2)
  }

  function PutResource(k: ResourceKey, rest: Bytes): Bytes { Put8(Order.ResourceCode(k.kind), PutText(k.id, rest)) }

  function GetResource(b: Bytes): (r: Parsed<ResourceKey>)
    ensures r.Got? ==> GoodResource(r.value) && b == PutResource(r.value, r.rest)
  {
    hide Put8, PutText, ValidIdentifier;
    var (kind, b1) :- Get8(b);
    if kind == 0 then
      var (id, b2) :- GetText(b1, MAX_IDENTIFIER_BYTES);
      if id == [] then Got(NO_SUBJECT, b2) else Refused(Status.Malformed)
    else if kind > 9 then Refused(Status.Malformed)
    else
      var (id, b2) :- GetIdentifier(b1);
      Got(ResourceKey(ResourceOf(kind), id), b2)
  }

  function PutEvidence(e: Evidence, rest: Bytes): Bytes {
    Put8(ProvenanceCode(e.provenance), PutSigned(e.observedAt, Put64(e.ttl, PutRaw(e.payload, rest))))
  }

  function GetEvidence(b: Bytes): (r: Parsed<Evidence>)
    ensures r.Got? ==> GoodEvidence(r.value) && b == PutEvidence(r.value, r.rest)
  {
    hide Put8, PutSigned, Put64, PutRaw;
    var (provenance, b1) :- GetCode(b, 6);
    var (observed, b2) :- GetSigned(b1);
    var (ttl, b3) :- Get64(b2);
    if ttl > MAX_EVIDENCE_TTL_MS then Refused(Status.LimitExceeded)
    else
      var (payload, b4) :- GetDigest(b3);
      Got(Evidence(ProvenanceOf(provenance), observed, ttl, payload), b4)
  }

  function PutValue(v: CapacityValue, rest: Bytes): Bytes {
    PutFlag(v.Known?, Put64(if v.Known? then v.bps else 0, rest))
  }

  function GetValue(b: Bytes): (r: Parsed<CapacityValue>)
    ensures r.Got? ==> GoodValue(r.value) && b == PutValue(r.value, r.rest)
  {
    hide PutFlag, Put64;
    var (known, b1) :- GetFlag(b);
    var (bps, b2) :- Get64(b1);
    if known && bps > MAX_CAPACITY_BPS then Refused(Status.LimitExceeded)
    else if !known && bps != 0 then Refused(Status.Malformed)
    else Got(if known then Known(bps) else UnknownValue, b2)
  }

  function PutCapacity(v: CapacityVector, rest: Bytes): Bytes {
    PutValue(v.ingress, PutValue(v.egress, PutValue(v.internal, rest)))
  }

  function GetCapacity(b: Bytes): (r: Parsed<CapacityVector>)
    ensures r.Got? ==> GoodCapacity(r.value) && b == PutCapacity(r.value, r.rest)
  {
    hide PutValue, GoodValue;
    var (ingress, b1) :- GetValue(b);
    var (egress, b2) :- GetValue(b1);
    var (internal, b3) :- GetValue(b2);
    Got(CapacityVector(ingress, egress, internal), b3)
  }

  // ----- Lists of names -----------------------------------------------------

  predicate GoodNames(xs: seq<Text>, bound: nat) {
    |xs| <= bound && forall i | 0 <= i < |xs| :: ValidIdentifier(xs[i])
  }

  predicate GoodResources(xs: seq<ResourceKey>, bound: nat) {
    |xs| <= bound && forall i | 0 <= i < |xs| :: GoodResource(xs[i])
  }

  function PutNames(xs: seq<Text>, rest: Bytes): Bytes { PutList(xs, PutText, rest) }

  function GetNames(b: Bytes, bound: nat): (r: Parsed<seq<Text>>)
    ensures r.Got? ==> GoodNames(r.value, bound) && b == PutNames(r.value, r.rest)
  {
    hide PutText, GetIdentifier, ValidIdentifier, PutCount;
    var n := GetCount(b, bound);
    var r := GetList(b, bound, GetIdentifier);
    if n.Got? then AllCanonical(n.value, GetIdentifier, PutText, ValidIdentifier, n.rest); r else r
  }

  function PutResources(xs: seq<ResourceKey>, rest: Bytes): Bytes { PutList(xs, PutResource, rest) }

  function GetResources(b: Bytes, bound: nat): (r: Parsed<seq<ResourceKey>>)
    ensures r.Got? ==> GoodResources(r.value, bound) && b == PutResources(r.value, r.rest)
  {
    hide PutResource, GetResource, GoodResource, PutCount;
    var n := GetCount(b, bound);
    var r := GetList(b, bound, GetResource);
    if n.Got? then AllCanonical(n.value, GetResource, PutResource, GoodResource, n.rest); r else r
  }

  function PutOptionalName(x: Option<Text>, rest: Bytes): Bytes {
    PutFlag(x.Some?, if x.Some? then PutText(x.value, rest) else rest)
  }

  function GetOptionalName(b: Bytes): (r: Parsed<Option<Text>>)
    ensures r.Got? ==> (r.value.Some? ==> ValidIdentifier(r.value.value)) && b == PutOptionalName(r.value, r.rest)
  {
    hide PutFlag, PutText, ValidIdentifier;
    var (present, b1) :- GetFlag(b);
    if !present then Got(None, b1)
    else
      var (x, b2) :- GetIdentifier(b1);
      Got(Some(x), b2)
  }

  function PutOptionalResource(x: Option<ResourceKey>, rest: Bytes): Bytes {
    PutFlag(x.Some?, if x.Some? then PutResource(x.value, rest) else rest)
  }

  function GetOptionalResource(b: Bytes): (r: Parsed<Option<ResourceKey>>)
    ensures r.Got? ==> (r.value.Some? ==> GoodResource(r.value.value)) && b == PutOptionalResource(r.value, r.rest)
  {
    hide PutFlag, PutResource, GoodResource;
    var (present, b1) :- GetFlag(b);
    if !present then Got(None, b1)
    else
      var (x, b2) :- GetResource(b1);
      Got(Some(x), b2)
  }

  // ----- Claims -------------------------------------------------------------

  /** What a claim must look like to be read back; its own digest is not part of
      the encoding. */
  predicate GoodClaim(c: Claim) {
    && GoodEvidence(c.evidence)
    && (c.PoolClaim? || ValidIdentifier(c.id))
    && match c
       case ClusterClaim(_, _, pods, racks, _, _) =>
         GoodNames(pods, MAX_RESOURCE_MEMBERS + 1) && GoodNames(racks, MAX_RESOURCE_MEMBERS + 1)
       case PodClaim(_, _, racks, _, _) => GoodNames(racks, MAX_RESOURCE_MEMBERS + 1)
       case RackClaim(_, _, capacity, _, _, _) => GoodCapacity(capacity)
       case SharedLinkClaim(_, _, _, capacity, _, _, _) => GoodCapacity(capacity)
       case GatewayClaim(_, _, capacity, _, _, _) => GoodCapacity(capacity)
       case PoolClaim(owner, _, _, capacity, _, _) => GoodResource(owner) && GoodCapacity(capacity)
       case FailureDomainClaim(_, _, parent, members, _, _, _) =>
         (parent.Some? ==> ValidIdentifier(parent.value)) && GoodResources(members, MAX_RESOURCE_MEMBERS + 1)
       case ZoneClaim(_, _, _, _, domains, resources, _, _, _) =>
         GoodNames(domains, MAX_FAILURE_DOMAINS + 1) && GoodResources(resources, MAX_RESOURCE_MEMBERS + 1)
       case ObligationClaim(_, _, scopeDomain, scopeResource, _, _, _, _, _) =>
         (scopeDomain.Some? ==> ValidIdentifier(scopeDomain.value))
         && (scopeResource.Some? ==> GoodResource(scopeResource.value))
  }

  function Bare(c: Claim): Claim { c.(recordDigest := ZERO_DIGEST) }

  function PutClaim(c: Claim, rest: Bytes): Bytes {
    match c
    case ClusterClaim(id, generation, pods, racks, evidence, _) =>
      PutText(id, Put64(generation, PutNames(pods, PutNames(racks, PutEvidence(evidence, rest)))))
    case PodClaim(id, generation, racks, evidence, _) =>
      PutText(id, Put64(generation, PutNames(racks, PutEvidence(evidence, rest))))
    case RackClaim(id, generation, capacity, uplink, evidence, _) =>
      PutText(id, Put64(generation, PutCapacity(capacity, Put8(StateCode(uplink), PutEvidence(evidence, rest)))))
    case SharedLinkClaim(id, external, generation, capacity, state, evidence, _) =>
      PutText(id, PutFlag(external, Put64(generation, PutCapacity(capacity,
        Put8(StateCode(state), PutEvidence(evidence, rest))))))
    case GatewayClaim(id, generation, capacity, state, evidence, _) =>
      PutText(id, Put64(generation, PutCapacity(capacity, Put8(StateCode(state), PutEvidence(evidence, rest)))))
    case PoolClaim(owner, scope, generation, capacity, evidence, _) =>
      PutResource(owner, Put8(ScopeCode(scope), Put64(generation, PutCapacity(capacity, PutEvidence(evidence, rest)))))
    case FailureDomainClaim(id, domainClass, parent, members, generation, evidence, _) =>
      PutText(id, Put8(ClassCode(domainClass), PutOptionalName(parent, PutResources(members,
        Put64(generation, PutEvidence(evidence, rest))))))
    case ZoneClaim(id, state, start, end, domains, resources, generation, evidence, _) =>
      PutText(id, Put8(MaintenanceCode(state), PutSigned(start, PutSigned(end, PutNames(domains,
        PutResources(resources, Put64(generation, PutEvidence(evidence, rest))))))))
    case ObligationClaim(id, kind, scopeDomain, scopeResource, required, isProtected, generation, evidence, _) =>
      PutText(id, Put8(ObligationCode(kind), PutOptionalName(scopeDomain, PutOptionalResource(scopeResource,
        Put64(required, PutFlag(isProtected, Put64(generation, PutEvidence(evidence, rest))))))))
  }

  function GetCluster(b: Bytes): Parsed<Claim> {
    var (id, b1) :- GetIdentifier(b);
    var (generation, b2) :- Get64(b1);
    var (pods, b3) :- GetNames(b2, MAX_RESOURCE_MEMBERS + 1);
    var (racks, b4) :- GetNames(b3, MAX_RESOURCE_MEMBERS + 1);
    var (evidence, b5) :- GetEvidence(b4);
    Got(ClusterClaim(id, generation, pods, racks, evidence, ZERO_DIGEST), b5)
  }

  function GetPod(b: Bytes): Parsed<Claim> {
    var (id, b1) :- GetIdentifier(b);
    var (generation, b2) :- Get64(b1);
    var (racks, b3) :- GetNames(b2, MAX_RESOURCE_MEMBERS + 1);
    var (evidence, b4) :- GetEvidence(b3);
    Got(PodClaim(id, generation, racks, evidence, ZERO_DIGEST), b4)
  }

  function GetRack(b: Bytes): Parsed<Claim> {
    var (id, b1) :- GetIdentifier(b);
    var (generation, b2) :- Get64(b1);
    var (capacity, b3) :- GetCapacity(b2);
    var (uplink, b4) :- GetCode(b3, 3);
    var (evidence, b5) :- GetEvidence(b4);
    Got(RackClaim(id, generation, capacity, StateOf(uplink), evidence, ZERO_DIGEST), b5)
  }

  function GetLink(b: Bytes): Parsed<Claim> {
    var (id, b1) :- GetIdentifier(b);
    var (external, b2) :- GetFlag(b1);
    var (generation, b3) :- Get64(b2);
    var (capacity, b4) :- GetCapacity(b3);
    var (state, b5) :- GetCode(b4, 3);
    var (evidence, b6) :- GetEvidence(b5);
    Got(SharedLinkClaim(id, external, generation, capacity, StateOf(state), evidence, ZERO_DIGEST), b6)
  }

  function GetGateway(b: Bytes): Parsed<Claim> {
    var (id, b1) :- GetIdentifier(b);
    var (generation, b2) :- Get64(b1);
    var (capacity, b3) :- GetCapacity(b2);
    var (state, b4) :- GetCode(b3, 3);
    var (evidence, b5) :- GetEvidence(b4);
    Got(GatewayClaim(id, generation, capacity, StateOf(state), evidence, ZERO_DIGEST), b5)
  }

  function GetPool(b: Bytes): Parsed<Claim> {
    var (owner, b1) :- GetResource(b);
    var (scope, b2) :- GetCode(b1, 8);
    var (generation, b3) :- Get64(b2);
    var (capacity, b4) :- GetCapacity(b3);
    var (evidence, b5) :- GetEvidence(b4);
    Got(PoolClaim(owner, ScopeOf(scope), generation, capacity, evidence, ZERO_DIGEST), b5)
  }

  function GetFailureDomain(b: Bytes): Parsed<Claim> {
    var (id, b1) :- GetIdentifier(b);
    var (domainClass, b2) :- GetCode(b1, 2);
    var (parent, b3) :- GetOptionalName(b2);
    var (members, b4) :- GetResources(b3, MAX_RESOURCE_MEMBERS + 1);
    var (generation, b5) :- Get64(b4);
    var (evidence, b6) :- GetEvidence(b5);
    Got(FailureDomainClaim(id, ClassOf(domainClass), parent, members, generation, evidence, ZERO_DIGEST), b6)
  }

  function GetZone(b: Bytes): Parsed<Claim> {
    var (id, b1) :- GetIdentifier(b);
    var (state, b2) :- GetCode(b1, 4);
    var (start, b3) :- GetSigned(b2);
    var (end, b4) :- GetSigned(b3);
    var (domains, b5) :- GetNames(b4, MAX_FAILURE_DOMAINS + 1);
    var (resources, b6) :- GetResources(b5, MAX_RESOURCE_MEMBERS + 1);
    var (generation, b7) :- Get64(b6);
    var (evidence, b8) :- GetEvidence(b7);
    Got(ZoneClaim(id, MaintenanceOf(state), start, end, domains, resources, generation, evidence, ZERO_DIGEST), b8)
  }

  function GetObligation(b: Bytes): Parsed<Claim> {
    var (id, b1) :- GetIdentifier(b);
    var (kind, b2) :- GetCode(b1, 7);
    var (scopeDomain, b3) :- GetOptionalName(b2);
    var (scopeResource, b4) :- GetOptionalResource(b3);
    var (required, b5) :- Get64(b4);
    var (isProtected, b6) :- GetFlag(b5);
    var (generation, b7) :- Get64(b6);
    var (evidence, b8) :- GetEvidence(b7);
    Got(ObligationClaim(id, ObligationOf(kind), scopeDomain, scopeResource, required, isProtected, generation,
                        evidence, ZERO_DIGEST), b8)
  }

  /** The reader of the claims of one list. */
  function GetClaim(list: nat, b: Bytes): Parsed<Claim>
    requires list < 9
  {
    if list == 0 then GetCluster(b) else if list == 1 then GetPod(b) else if list == 2 then GetRack(b)
    else if list == 3 then GetLink(b) else if list == 4 then GetGateway(b) else if list == 5 then GetPool(b)
    else if list == 6 then GetFailureDomain(b) else if list == 7 then GetZone(b) else GetObligation(b)
  }

  // ----- Reading back -------------------------------------------------------

  lemma ReadIdentifier(x: Text, rest: Bytes)
    requires ValidIdentifier(x)
    ensures GetIdentifier(PutText(x, rest)) == Got(x, rest)
  {
    ReadText(x, rest, MAX_IDENTIFIER_BYTES);
    hide PutText, GetText;
  }

  lemma ReadResource(k: ResourceKey, rest: Bytes)
    requires GoodResource(k)
    ensures GetResource(PutResource(k, rest)) == Got(k, rest)
  {
    hide Put8, Get8, PutText, GetText, GetIdentifier;
    CodesReadBack();
    Read8(Order.ResourceCode(k.kind), PutText(k.id, rest));
    if k.Valid() { ReadIdentifier(k.id, rest); } else { ReadText(k.id, rest, MAX_IDENTIFIER_BYTES); }
  }

  lemma ReadDomain(k: MemberDomainKey, rest: Bytes)
    requires GoodDomain(k)
    ensures GetDomain(PutDomain(k, rest)) == Got(k, rest)
  {
    hide Put8, Get8, PutText, GetText, GetIdentifier;
    CodesReadBack();
    Read8(Order.DomainCode(k.kind), PutText(k.id, rest));
    if k.Valid() { ReadIdentifier(k.id, rest); } else { ReadText(k.id, rest, MAX_IDENTIFIER_BYTES); }
  }

  lemma ReadEvidence(e: Evidence, rest: Bytes)
    requires GoodEvidence(e)
    ensures GetEvidence(PutEvidence(e, rest)) == Got(e, rest)
  {
    PrimitivesReadBack();
    CodesReadBack();
    hide Put8, Get8, PutSigned, GetSigned, Put64, Get64, PutRaw, GetDigest;
  }

  lemma ReadValue(v: CapacityValue, rest: Bytes)
    requires GoodValue(v)
    ensures GetValue(PutValue(v, rest)) == Got(v, rest)
  {
    PrimitivesReadBack();
    hide PutFlag, GetFlag, Put64, Get64;
  }

  lemma ReadCapacity(v: CapacityVector, rest: Bytes)
    requires GoodCapacity(v)
    ensures GetCapacity(PutCapacity(v, rest)) == Got(v, rest)
  {
    ReadValue(v.ingress, PutValue(v.egress, PutValue(v.internal, rest)));
    ReadValue(v.egress, PutValue(v.internal, rest));
    ReadValue(v.internal, rest);
    hide PutValue, GetValue;
  }

  lemma ReadNames(xs: seq<Text>, rest: Bytes, bound: nat)
    requires GoodNames(xs, bound) && bound <= MAX_U32
    ensures GetNames(PutNames(xs, rest), bound) == Got(xs, rest)
  {
    ReadCount(|xs|, PutAll(xs, PutText, rest), bound);
    forall i, k: Bytes | 0 <= i < |xs| ensures GetIdentifier(PutText(xs[i], k)) == Got(xs[i], k) {
      ReadIdentifier(xs[i], k);
    }
    hide PutText, GetIdentifier, PutCount, GetCount, ValidIdentifier;
    AllReadBack(xs, xs, PutText, GetIdentifier, rest);
  }

  lemma ReadResources(xs: seq<ResourceKey>, rest: Bytes, bound: nat)
    requires GoodResources(xs, bound) && bound <= MAX_U32
    ensures GetResources(PutResources(xs, rest), bound) == Got(xs, rest)
  {
    ReadCount(|xs|, PutAll(xs, PutResource, rest), bound);
    forall i, k: Bytes | 0 <= i < |xs| ensures GetResource(PutResource(xs[i], k)) == Got(xs[i], k) {
      ReadResource(xs[i], k);
    }
    hide PutResource, GetResource, PutCount, GetCount, GoodResource;
    AllReadBack(xs, xs, PutResource, GetResource, rest);
  }

  lemma ReadOptionals(name: Option<Text>, key: Option<ResourceKey>, rest: Bytes)
    ensures (name.Some? ==> ValidIdentifier(name.value)) ==>
      GetOptionalName(PutOptionalName(name, rest)) == Got(name, rest)
    ensures (key.Some? ==> GoodResource(key.value)) ==>
      GetOptionalResource(PutOptionalResource(key, rest)) == Got(key, rest)
  {
    PrimitivesReadBack();
    if name.Some? && ValidIdentifier(name.value) { ReadIdentifier(name.value, rest); }
    if key.Some? && GoodResource(key.value) { ReadResource(key.value, rest); }
    hide PutFlag, GetFlag, PutText, GetIdentifier, PutResource, GetResource, ValidIdentifier, GoodResource;
  }

  /** The parts of a claim read back, whatever follows them. */
  lemma PartsReadBack()
    ensures forall x: Text, rest {:trigger PutText(x, rest)} ::
      ValidIdentifier(x) ==> GetIdentifier(PutText(x, rest)) == Got(x, rest)
    ensures forall k, rest {:trigger PutResource(k, rest)} ::
      GoodResource(k) ==> GetResource(PutResource(k, rest)) == Got(k, rest)
    ensures forall e, rest {:trigger PutEvidence(e, rest)} ::
      GoodEvidence(e) ==> GetEvidence(PutEvidence(e, rest)) == Got(e, rest)
    ensures forall v, rest {:trigger PutCapacity(v, rest)} ::
      GoodCapacity(v) ==> GetCapacity(PutCapacity(v, rest)) == Got(v, rest)
    ensures forall x: u8, rest, limit {:trigger GetCode(Put8(x, rest), limit)} ::
      x <= limit ==> GetCode(Put8(x, rest), limit) == Got(x, rest)
  {
    hide *;
    forall x: Text, rest | ValidIdentifier(x) ensures GetIdentifier(PutText(x, rest)) == Got(x, rest) {
      ReadIdentifier(x, rest);
    }
    forall k, rest | GoodResource(k) ensures GetResource(PutResource(k, rest)) == Got(k, rest) { ReadResource(k, rest); }
    forall e, rest | GoodEvidence(e) ensures GetEvidence(PutEvidence(e, rest)) == Got(e, rest) { ReadEvidence(e, rest); }
    forall v, rest | GoodCapacity(v) ensures GetCapacity(PutCapacity(v, rest)) == Got(v, rest) { ReadCapacity(v, rest); }
    forall x: u8, rest, limit: u8 | x <= limit ensures GetCode(Put8(x, rest), limit) == Got(x, rest) {
      ReadCode(x, rest, limit);
    }
  }

  /** So do its lists and its optional parts. */
  lemma ListsReadBack()
    ensures forall xs: seq<Text>, rest, bound: nat {:trigger GetNames(PutNames(xs, rest), bound)} ::
      GoodNames(xs, bound) && bound <= MAX_U32 ==> GetNames(PutNames(xs, rest), bound) == Got(xs, rest)
    ensures forall xs: seq<ResourceKey>, rest, bound: nat {:trigger GetResources(PutResources(xs, rest), bound)} ::
      GoodResources(xs, bound) && bound <= MAX_U32 ==> GetResources(PutResources(xs, rest), bound) == Got(xs, rest)
    ensures forall x: Option<Text>, rest {:trigger PutOptionalName(x, rest)} ::
      (x.Some? ==> ValidIdentifier(x.value)) ==> GetOptionalName(PutOptionalName(x, rest)) == Got(x, rest)
    ensures forall x: Option<ResourceKey>, rest {:trigger PutOptionalResource(x, rest)} ::
      (x.Some? ==> GoodResource(x.value)) ==> GetOptionalResource(PutOptionalResource(x, rest)) == Got(x, rest)
  {
    hide *;
    forall xs: seq<Text>, rest, bound: nat | GoodNames(xs, bound) && bound <= MAX_U32
      ensures GetNames(PutNames(xs, rest), bound) == Got(xs, rest)
    {
      ReadNames(xs, rest, bound);
    }
    forall xs: seq<ResourceKey>, rest, bound: nat | GoodResources(xs, bound) && bound <= MAX_U32
      ensures GetResources(PutResources(xs, rest), bound) == Got(xs, rest)
    {
      ReadResources(xs, rest, bound);
    }
    forall x: Option<Text>, rest | x.Some? ==> ValidIdentifier(x.value)
      ensures GetOptionalName(PutOptionalName(x, rest)) == Got(x, rest)
    {
      ReadOptionals(x, None, rest);
    }
    forall x: Option<ResourceKey>, rest | x.Some? ==> GoodResource(x.value)
      ensures GetOptionalResource(PutOptionalResource(x, rest)) == Got(x, rest)
    {
      ReadOptionals(None, x, rest);
    }
  }

  lemma ReadCode(x: u8, rest: Bytes, limit: u8)
    requires x <= limit
    ensures GetCode(Put8(x, rest), limit) == Got(x, rest)
  {
    Read8(x, rest);
    hide Put8, Get8;
  }

  /** A well-formed claim reads back as itself, without its own digest. */
  lemma ReadClaim(c: Claim, rest: Bytes)
    requires GoodClaim(c)
    ensures GetClaim(c.List(), PutClaim(c, rest)) == Got(Bare(c), rest)
  {
    hide Put8, PutText, Put64, PutSigned, PutFlag, PutNames, PutResources, PutEvidence, PutCapacity, PutResource,
      PutOptionalName, PutOptionalResource, Get64, GetSigned, GetFlag, GetNames, GetResources, GetEvidence,
      GetCapacity, GetResource, GetOptionalName, GetOptionalResource, GetIdentifier, GetCode,
      ValidIdentifier, GoodResource, GoodNames, GoodResources, GoodCapacity, GoodEvidence;
    PrimitivesReadBack();
    PartsReadBack();
    ListsReadBack();
    CodesReadBack();
  }

  /** Whatever a claim reader accepts is the encoding of the claim it returns. */
  lemma ClaimCanonical(list: nat, b: Bytes)
    requires list < 9 && GetClaim(list, b).Got?
    ensures var r := GetClaim(list, b);
            && GoodClaim(r.value) && r.value.List() == list && r.value == Bare(r.value)
            && b == PutClaim(r.value, r.rest)
  {
    hide Put8, PutText, Put64, PutSigned, PutFlag, PutNames, PutResources, PutEvidence, PutCapacity, PutResource,
      PutOptionalName, PutOptionalResource, Get64, GetSigned, GetFlag, GetNames, GetResources, GetEvidence,
      GetCapacity, GetResource, GetOptionalName, GetOptionalResource, GetIdentifier, GetCode,
      ValidIdentifier, GoodResource, GoodNames, GoodResources, GoodCapacity, GoodEvidence;
  }

  // ----- What follows an encoding ------------------------------------------

  lemma NamesAppend(xs: seq<Text>, rest: Bytes, more: Bytes)
    ensures PutNames(xs, rest) + more == PutNames(xs, rest + more)
  {
    PrimitivesAppend();
    hide PutText, PutCount;
    AllAppend(xs, PutText, rest, more);
  }

  lemma ResourcesAppend(xs: seq<ResourceKey>, rest: Bytes, more: Bytes)
    ensures PutResources(xs, rest) + more == PutResources(xs, rest + more)
  {
    PrimitivesAppend();
    forall k, r: Bytes, m: Bytes ensures PutResource(k, r) + m == PutResource(k, r + m) {
      hide Put8, PutText;
    }
    hide PutResource, PutCount;
    AllAppend(xs, PutResource, rest, more);
  }

  lemma PartsAppend()
    ensures forall k, rest, more {:trigger PutResource(k, rest) + more} ::
      PutResource(k, rest) + more == PutResource(k, rest + more)
    ensures forall k, rest, more {:trigger PutDomain(k, rest) + more} ::
      PutDomain(k, rest) + more == PutDomain(k, rest + more)
    ensures forall e, rest, more {:trigger PutEvidence(e, rest) + more} ::
      PutEvidence(e, rest) + more == PutEvidence(e, rest + more)
    ensures forall v, rest, more {:trigger PutCapacity(v, rest) + more} ::
      PutCapacity(v, rest) + more == PutCapacity(v, rest + more)
    ensures forall xs, rest, more {:trigger PutNames(xs, rest) + more} ::
      PutNames(xs, rest) + more == PutNames(xs, rest + more)
    ensures forall xs, rest, more {:trigger PutResources(xs, rest) + more} ::
      PutResources(xs, rest) + more == PutResources(xs, rest + more)
    ensures forall x, rest, more {:trigger PutOptionalName(x, rest) + more} ::
      PutOptionalName(x, rest) + more == PutOptionalName(x, rest + more)
    ensures forall x, rest, more {:trigger PutOptionalResource(x, rest) + more} ::
      PutOptionalResource(x, rest) + more == PutOptionalResource(x, rest + more)
  {
    PrimitivesAppend();
    hide Put8, PutText, PutSigned, Put64, PutRaw, PutFlag, PutNames, PutResources;
    forall xs, rest: Bytes, more: Bytes ensures PutNames(xs, rest) + more == PutNames(xs, rest + more) {
      NamesAppend(xs, rest, more);
    }
    forall xs, rest: Bytes, more: Bytes ensures PutResources(xs, rest) + more == PutResources(xs, rest + more) {
      ResourcesAppend(xs, rest, more);
    }
  }

  lemma ClaimAppend(c: Claim, rest: Bytes, more: Bytes)
    ensures PutClaim(c, rest) + more == PutClaim(c, rest + more)
  {
    hide Put8, PutText, Put64, PutSigned, PutFlag, PutNames, PutResources, PutEvidence, PutCapacity, PutResource,
      PutOptionalName, PutOptionalResource;
    PrimitivesAppend();
    PartsAppend();
  }
}
