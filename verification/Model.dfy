/** The value types every component of the site shares: bounded integers, byte
    strings, identities, versions, evidence, capacity, claims and declarations.

    A `std::string` is the byte string it holds, and the source's unsigned
    integers are integers with their width spelled out, so that every wrap and
    every saturation is visible in the code that performs it. */
module Model {

  // ----- Integers and bytes -------------------------------------------------

  const MAX_U16 := 0xFFFF
  const MAX_U32 := 0xFFFF_FFFF
  const MAX_U64 := 0xFFFF_FFFF_FFFF_FFFF

  type u8 = x: int | 0 <= x <= 0xFF
  type u16 = x: int | 0 <= x <= MAX_U16
  type u32 = x: int | 0 <= x <= MAX_U32
  type u64 = x: int | 0 <= x <= MAX_U64
  type i64 = x: int | -0x8000_0000_0000_0000 <= x <= 0x7FFF_FFFF_FFFF_FFFF

  type Bytes = seq<u8>
  type Text = seq<u8>

  /** Unsigned addition as the machine does it. */
  function Wrap64(x: int): u64 { x % 0x1_0000_0000_0000_0000 }

  /** `next()` of a generation or an epoch: it stops at the maximum. */
  function Saturating(x: u64): u64 { if x == MAX_U64 then x else x + 1 }

  datatype Option<+T> = None | Some(value: T)

  // ----- Limits -------------------------------------------------------------

  const MAX_IDENTIFIER_BYTES := 192
  const MAX_TEXT_BYTES := 4096
  const MAX_CLAIM_LISTS := 16384
  const MAX_RESOURCE_MEMBERS := 4096
  const MAX_CAPACITY_CONTRIBUTIONS := 16384
  const MAX_FAILURE_DOMAINS := 4096
  const MAX_MAINTENANCE_ZONES := 1024
  const MAX_OBLIGATIONS := 1024
  const MAX_MEMBER_DOMAINS := 4096
  const MAX_EXPECTED_MEMBERS := 4096
  const MAX_CONFLICTS := 8192
  const MAX_DEFICITS := 8192
  const MAX_DECISIONS := 131072
  const MAX_DECISION_SOURCES := 4096
  const MAX_ATTESTORS := 4096
  const MAX_FAILURE_DOMAIN_DEPTH := 32
  const MAX_CAPACITY_BPS := 1_000_000_000_000_000
  const MAX_COUNT_VALUE := 1_000_000_000
  const MAX_EVIDENCE_TTL_MS := 604_800_000
  const FUTURE_SKEW_MS := 5_000
  const SCHEMA_MAJOR := 1
  const SCHEMA_MINOR := 0

  // ----- Status -------------------------------------------------------------

  datatype Status =
    | Unknown | Ok | Accepted | Composed | Current | Published | Renewed | Granted
    | Unsupported | Stale | Conflicting | Incomplete | Indeterminate | Partial | Degraded | Partitioned
    | Invalid | Malformed | Truncated | Corrupt | Replayed | NotFound | AlreadyExists | AlreadyRetired
    | LimitExceeded | CapacityOverflow | CapacityUnderflow | UnsupportedFormat | SchemaIncompatible
    | IntegrityFailure | Stopped | NotStarted
    | Unauthorized | FencedEpoch | FencedIncarnation | FencedGeneration | FencedAttempt
    | LeaseExpired | LeaseNotYetValid | LeaseRevoked | AuthorityHeldElsewhere
    | MembershipMissing | MembershipUnexpected | GenerationMismatch | DigestMismatchDeclaration
    | SiteMismatch | EpochMismatch | OwnershipOverlap | AccountingConflict | CapacityUnknown
    | FailureDomainCycle | FailureDomainConflict | FailureDomainDanglingParent
    | MaintenanceConflict | MaintenanceUnknown | ObligationViolated | ObligationIndeterminate
    | EvidenceStale | EvidenceMissing | EvidenceSyntheticOnly | EvidenceFuture
    | ConnectivityUnknown | ConnectivityDown | ConnectivityDegraded | NoAuthoritativeSource
  {
    /** Only the positive codes; `AlreadyExists` is one of them. */
    predicate IsOk() {
      Ok? || Accepted? || Composed? || Current? || Published? || Renewed? || Granted? || AlreadyExists?
    }
  }

  /** A result, or the status that refused it. */
  datatype Outcome<+T> = Success(value: T) | Failure(status: Status) {
    predicate IsFailure() { Failure? }

    function PropagateFailure<U>(): Outcome<U>
      requires Failure?
    {
      Failure(status)
    }

    function Extract(): T
      requires Success?
    {
      value
    }
  }

  // ----- Identities ---------------------------------------------------------

  predicate IsLead(c: u8) { 65 <= c <= 90 || 97 <= c <= 122 || 48 <= c <= 57 }

  predicate IsSeparator(c: u8) { c == 46 || c == 95 || c == 45 || c == 58 }

  predicate ValidIdentifier(text: Text) {
    && 0 < |text| <= MAX_IDENTIFIER_BYTES
    && IsLead(text[0])
    && (forall i | 0 <= i < |text| :: IsLead(text[i]) || IsSeparator(text[i]))
    && !IsSeparator(text[|text| - 1])
  }

  datatype DomainKind = UnknownDomain | ClusterDomain | PodDomain | RackDomain | SharedDomain

  datatype MemberDomainKey = MemberDomainKey(kind: DomainKind, id: Text) {
    predicate Valid() { kind != UnknownDomain && ValidIdentifier(id) }
  }

  datatype ResourceKind =
    | UnknownResource | ClusterKind | PodKind | RackKind | SharedLinkKind | GatewayKind
    | CapacityPoolKind | FailureDomainKind | MaintenanceZoneKind | ObligationKindOfResource

  datatype ResourceKey = ResourceKey(kind: ResourceKind, id: Text) {
    predicate Valid() { kind != UnknownResource && ValidIdentifier(id) }
  }

  const NO_SUBJECT := ResourceKey(UnknownResource, [])

  // ----- Versions -----------------------------------------------------------

  type Digest = d: seq<u8> | |d| == 32 witness seq(32, _ => 0)

  const ZERO_DIGEST: Digest := [
    0, 0, 0, 0, 0, 0, 0, 0, 0, 0, 0, 0, 0, 0, 0, 0,
    0, 0, 0, 0, 0, 0, 0, 0, 0, 0, 0, 0, 0, 0, 0, 0]

  datatype Incarnation = Incarnation(sequence: u64, boot: Text) {
    predicate Valid() { sequence != 0 && ValidIdentifier(boot) }
  }

  datatype SchemaVersion = SchemaVersion(major: u32, minor: u32) {
    predicate Supported() { major == SCHEMA_MAJOR && minor <= SCHEMA_MINOR }
  }

  datatype SourceRef = SourceRef(domain: MemberDomainKey, generation: u64, digest: Digest)

  datatype PublishAttempt = PublishAttempt(sequence: u64, attempt: u32) {
    predicate Valid() { sequence != 0 }
  }

  // ----- Evidence -----------------------------------------------------------

  datatype Provenance =
    UnknownProvenance | Measured | Reported | Derived | Estimated | Synthetic | Reconstructed

  datatype EvidenceState =
    | UnknownEvidence | Fresh | StaleEvidence | FutureEvidence | InvalidEvidence
    | SyntheticOnly | NeedsRevalidation

  datatype Evidence = Evidence(provenance: Provenance, observedAt: i64, ttl: u64, payload: Digest) {
    function Evaluate(now: int): EvidenceState {
      if provenance == UnknownProvenance then UnknownEvidence
      else if observedAt <= 0 || ttl == 0 || ttl > MAX_EVIDENCE_TTL_MS then InvalidEvidence
      else if observedAt > now + FUTURE_SKEW_MS then FutureEvidence
      else if provenance == Synthetic then SyntheticOnly
      else if provenance == Reconstructed then NeedsRevalidation
      else if observedAt + ttl < now then StaleEvidence
      else Fresh
    }
  }

  /** Observed by somebody, or derived from what was. */
  predicate Observed(p: Provenance) { p == Measured || p == Reported || p == Derived || p == Estimated }

  /** A positive instant and a lifetime within the bound. */
  predicate SoundTerm(e: Evidence) { e.observedAt > 0 && 0 < e.ttl <= MAX_EVIDENCE_TTL_MS }

  predicate Ahead(e: Evidence, now: int) { e.observedAt > now + FUTURE_SKEW_MS }

  /** Evidence that counts at an instant: observed, no further ahead of it than clocks
      may differ, and not yet past its lifetime. */
  predicate InTerm(e: Evidence, now: int) {
    && Observed(e.provenance)
    && 0 < e.observedAt <= now + FUTURE_SKEW_MS
    && 0 < e.ttl <= MAX_EVIDENCE_TTL_MS
    && now <= e.observedAt + e.ttl
  }

  /** Each state of evidence has an exact condition on its fields and the instant. */
  lemma EvidenceStateIff(e: Evidence, now: int)
    ensures e.Evaluate(now) == Fresh <==> InTerm(e, now)
    ensures e.Evaluate(now) == UnknownEvidence <==> e.provenance == UnknownProvenance
    ensures e.Evaluate(now) == InvalidEvidence <==> e.provenance != UnknownProvenance && !SoundTerm(e)
    ensures e.Evaluate(now) == FutureEvidence <==> e.provenance != UnknownProvenance && SoundTerm(e) && Ahead(e, now)
    ensures e.Evaluate(now) == SyntheticOnly <==> e.provenance == Synthetic && SoundTerm(e) && !Ahead(e, now)
    ensures e.Evaluate(now) == NeedsRevalidation <==> e.provenance == Reconstructed && SoundTerm(e) && !Ahead(e, now)
    ensures e.Evaluate(now) == StaleEvidence <==>
      Observed(e.provenance) && SoundTerm(e) && !Ahead(e, now) && e.observedAt + e.ttl < now
  {
  }

  // ----- Capacity -----------------------------------------------------------

  datatype CapacityValue = UnknownValue | Known(bps: u64)

  datatype Channel = Ingress | Egress | Internal

  datatype CapacityVector = CapacityVector(ingress: CapacityValue, egress: CapacityValue, internal: CapacityValue) {
    function At(c: Channel): CapacityValue {
      match c case Ingress => ingress case Egress => egress case Internal => internal
    }
  }

  const ALL_UNKNOWN := CapacityVector(UnknownValue, UnknownValue, UnknownValue)

  datatype CapacityScope =
    | UnknownScope | SiteIngress | SiteEgress | SiteInternal
    | RackLocal | PodLocal | ClusterLocal | SharedLinkScope | GatewayScope

  // ----- Claims -------------------------------------------------------------

  datatype ConnectivityState = UnknownState | Up | Down | DegradedState

  datatype FailureDomainClass = UnknownClass | Physical | Administrative

  datatype MaintenanceState = UnknownMaintenance | Scheduled | Active | Complete | Cancelled

  datatype ObligationKind =
    | UnknownObligation | MinIngress | MinEgress | MinInternal
    | MinDistinctFailureDomains | MinUpSharedLinks | MinUpGateways | DomainSurvivability
  {
    predicate IsCount() {
      MinDistinctFailureDomains? || MinUpSharedLinks? || MinUpGateways? || DomainSurvivability?
    }
  }

  /** One statement by one member domain about one resource. */
  datatype Claim =
    | ClusterClaim(id: Text, generation: u64, pods: seq<Text>, racks: seq<Text>,
                   evidence: Evidence, recordDigest: Digest)
    | PodClaim(id: Text, generation: u64, racks: seq<Text>, evidence: Evidence, recordDigest: Digest)
    | RackClaim(id: Text, generation: u64, capacity: CapacityVector, uplink: ConnectivityState,
                evidence: Evidence, recordDigest: Digest)
    | SharedLinkClaim(id: Text, external: bool, generation: u64, capacity: CapacityVector,
                      state: ConnectivityState, evidence: Evidence, recordDigest: Digest)
    | GatewayClaim(id: Text, generation: u64, capacity: CapacityVector, state: ConnectivityState,
                   evidence: Evidence, recordDigest: Digest)
    | PoolClaim(owner: ResourceKey, scope: CapacityScope, generation: u64, capacity: CapacityVector,
                evidence: Evidence, recordDigest: Digest)
    | FailureDomainClaim(id: Text, domainClass: FailureDomainClass, parent: Option<Text>,
                         members: seq<ResourceKey>, generation: u64, evidence: Evidence,
                         recordDigest: Digest)
    | ZoneClaim(id: Text, zoneState: MaintenanceState, windowStart: i64, windowEnd: i64,
                domains: seq<Text>, resources: seq<ResourceKey>, generation: u64,
                evidence: Evidence, recordDigest: Digest)
    | ObligationClaim(id: Text, obligation: ObligationKind, scopeDomain: Option<Text>,
                      scopeResource: Option<ResourceKey>, required: u64, isProtected: bool,
                      generation: u64, evidence: Evidence, recordDigest: Digest)
  {
    /** The position of the claim's list inside a declaration. */
    function List(): nat
      ensures List() < 9
    {
      match this
      case ClusterClaim(_, _, _, _, _, _) => 0
      case PodClaim(_, _, _, _, _) => 1
      case RackClaim(_, _, _, _, _, _) => 2
      case SharedLinkClaim(_, _, _, _, _, _, _) => 3
      case GatewayClaim(_, _, _, _, _, _) => 4
      case PoolClaim(_, _, _, _, _, _) => 5
      case FailureDomainClaim(_, _, _, _, _, _, _) => 6
      case ZoneClaim(_, _, _, _, _, _, _, _, _) => 7
      case ObligationClaim(_, _, _, _, _, _, _, _, _) => 8
    }

    /** The resource the claim is about. */
    function Key(): ResourceKey {
      match this
      case ClusterClaim(_, _, _, _, _, _) => ResourceKey(ClusterKind, id)
      case PodClaim(_, _, _, _, _) => ResourceKey(PodKind, id)
      case RackClaim(_, _, _, _, _, _) => ResourceKey(RackKind, id)
      case SharedLinkClaim(_, _, _, _, _, _, _) => ResourceKey(SharedLinkKind, id)
      case GatewayClaim(_, _, _, _, _, _) => ResourceKey(GatewayKind, id)
      case PoolClaim(_, _, _, _, _, _) => owner
      case FailureDomainClaim(_, _, _, _, _, _, _) => ResourceKey(FailureDomainKind, id)
      case ZoneClaim(_, _, _, _, _, _, _, _, _) => ResourceKey(MaintenanceZoneKind, id)
      case ObligationClaim(_, _, _, _, _, _, _, _, _) => ResourceKey(ObligationKindOfResource, id)
    }
  }

  /** A member domain's statement about its own subtree: nine claim lists, in
      the order clusters, pods, racks, shared links, gateways, capacity,
      failure domains, maintenance zones, obligations. */
  datatype Declaration = Declaration(
    domain: MemberDomainKey, site: Text, generation: u64, schema: SchemaVersion, digest: Digest,
    observedEpoch: u64, evidence: Evidence, lists: seq<seq<Claim>>)
  {
    predicate Typed() {
      && |lists| == 9
      && forall i, j | 0 <= i < 9 && 0 <= j < |lists[i]| :: lists[i][j].List() == i
    }
  }

  datatype PublicationRecord = PublicationRecord(
    domain: MemberDomainKey, generation: u64, digest: Digest, schema: SchemaVersion, site: Text,
    observedEpoch: u64, incarnation: Incarnation, publisher: Text, attempt: PublishAttempt,
    receivedAt: i64, acceptance: u64, declaration: Option<Declaration>)
  {
    function Source(): SourceRef { SourceRef(domain, generation, digest) }
  }

  datatype RetirementRecord = RetirementRecord(
    domain: MemberDomainKey, generation: u64, incarnation: Incarnation, receivedAt: i64,
    acceptance: u64, reason: Text)

  datatype ExpectedMember = ExpectedMember(
    domain: MemberDomainKey, pinned: bool, generation: u64, digest: Digest, required: bool)

  datatype SiteExpectation = SiteExpectation(
    site: Text, schema: SchemaVersion, minimumEpoch: u64, members: seq<ExpectedMember>, rejectUnexpected: bool)

  datatype AuthorityKind = UnknownAuthority | SiteControllerKind | MemberPublisher | MaintenanceOperator | Observer

  datatype AuthorityToken = AuthorityToken(
    kind: AuthorityKind, holder: Text, site: Text, epoch: u64, incarnation: Incarnation,
    generation: u64, leaseId: u64, issuedAt: i64, expiresAt: i64)
  {
    predicate StructurallyValid() {
      && kind != UnknownAuthority && holder != [] && ValidIdentifier(site)
      && epoch != 0 && incarnation.Valid()
      && leaseId != 0 && issuedAt > 0 && expiresAt >= issuedAt
    }

    function EvaluateAt(now: int): Status {
      if !StructurallyValid() then Status.Invalid
      else if now < issuedAt then Status.LeaseNotYetValid
      else if now > expiresAt then Status.LeaseExpired
      else Status.Ok
    }
  }

  predicate Named(d: MemberDomainKey) { d.kind != UnknownDomain && ValidIdentifier(d.id) }

  predicate NamedResource(k: ResourceKey) { k.kind != UnknownResource && ValidIdentifier(k.id) }

  predicate SoundIncarnation(i: Incarnation) { i.sequence != 0 && ValidIdentifier(i.boot) }

  /** A token with all its parts in place. */
  predicate SoundToken(t: AuthorityToken) {
    && t.kind != UnknownAuthority && t.holder != [] && ValidIdentifier(t.site) && t.epoch != 0
    && SoundIncarnation(t.incarnation)
    && t.leaseId != 0 && 0 < t.issuedAt <= t.expiresAt
  }

  /** The token is sound and the instant within its term. */
  predicate Stands(t: AuthorityToken, now: int) { SoundToken(t) && t.issuedAt <= now <= t.expiresAt }

  /** A token evaluates to a positive status exactly when it stands; otherwise the
      status says whether it is unsound, early or late. */
  lemma StandsIff(t: AuthorityToken, now: int)
    ensures t.StructurallyValid() <==> SoundToken(t)
    ensures t.EvaluateAt(now) == Status.Ok <==> Stands(t, now)
    ensures t.EvaluateAt(now).IsOk() <==> Stands(t, now)
    ensures t.EvaluateAt(now) == Status.LeaseExpired <==> SoundToken(t) && t.expiresAt < now
    ensures t.EvaluateAt(now) == Status.LeaseNotYetValid <==> SoundToken(t) && now < t.issuedAt
    ensures t.EvaluateAt(now) == Status.Invalid <==> !SoundToken(t)
  {
    hide ValidIdentifier;
  }
}
