/** Which declarations can be sealed, told from their fields. */
module Sealable {
  import opened Model
  import opened Canonical
  import opened ClaimCodec
  import opened RecordCodec
  import opened Seal
  import Order

  // ----- One claim ------------------------------------------------------------

  predicate Plausible(v: CapacityVector) {
    && (v.ingress.Known? ==> v.ingress.bps <= MAX_CAPACITY_BPS)
    && (v.egress.Known? ==> v.egress.bps <= MAX_CAPACITY_BPS)
    && (v.internal.Known? ==> v.internal.bps <= MAX_CAPACITY_BPS)
  }

  /** What evidence must state to be taken at all. */
  predicate Stated(e: Evidence) { e.provenance != UnknownProvenance && SoundTerm(e) }

  predicate SoundRequirement(kind: ObligationKind, required: u64) {
    match kind
    case UnknownObligation => false
    case MinIngress => required <= MAX_CAPACITY_BPS
    case MinEgress => required <= MAX_CAPACITY_BPS
    case MinInternal => required <= MAX_CAPACITY_BPS
    case MinDistinctFailureDomains => required <= MAX_COUNT_VALUE
    case MinUpSharedLinks => required <= MAX_COUNT_VALUE
    case MinUpGateways => required <= MAX_COUNT_VALUE
    case DomainSurvivability => required <= MAX_COUNT_VALUE
  }

  /** What a claim of each kind must say of its subject. */
  ghost predicate SoundSubject(c: Claim) {
    match c
    case ClusterClaim(id, _, _, _, _, _) => ValidIdentifier(id)
    case PodClaim(id, _, _, _, _) => ValidIdentifier(id)
    case RackClaim(id, _, capacity, _, _, _) => ValidIdentifier(id) && Plausible(capacity)
    case SharedLinkClaim(id, _, _, capacity, _, _, _) => ValidIdentifier(id) && Plausible(capacity)
    case GatewayClaim(id, _, capacity, _, _, _) => ValidIdentifier(id) && Plausible(capacity)
    case PoolClaim(owner, scope, _, capacity, _, _) => NamedResource(owner) && scope != UnknownScope && Plausible(capacity)
    case FailureDomainClaim(id, domainClass, parent, members, _, _, _) =>
      && ValidIdentifier(id) && domainClass != UnknownClass
      && (parent.Some? ==> ValidIdentifier(parent.value) && parent.value != id)
      && (forall k | k in members :: NamedResource(k)) && |(set k | k in members)| <= MAX_RESOURCE_MEMBERS
    case ZoneClaim(id, _, start, end, domains, resources, _, _, _) =>
      && ValidIdentifier(id) && start <= end
      && (forall d | d in domains :: ValidIdentifier(d)) && (forall k | k in resources :: NamedResource(k))
      && (domains != [] || resources != [])
    case ObligationClaim(id, kind, scopeDomain, scopeResource, required, _, _, _, _) =>
      && ValidIdentifier(id) && SoundRequirement(kind, required)
      && (scopeDomain.Some? ==> ValidIdentifier(scopeDomain.value))
      && (scopeResource.Some? ==> NamedResource(scopeResource.value))
  }

  /** A claim that may stand in a sealed declaration. */
  ghost predicate SealableClaim(hash: Bytes -> Digest, c: Claim) {
    && SoundSubject(c) && c.generation != 0 && Stated(c.evidence)
    && (c.recordDigest == ZERO_DIGEST || c.recordDigest == ClaimDigest(hash, Norm(c)))
  }

  lemma StatedIff(e: Evidence)
    ensures EvidenceRefusal(e).None? <==> Stated(e)
  {
  }

  lemma PlausibleIff(v: CapacityVector)
    ensures GoodCapacity(v) <==> Plausible(v)
  {
  }

  lemma NamesIff(xs: seq<Text>, ks: seq<ResourceKey>)
    ensures ValidNames(xs) <==> forall x | x in xs :: ValidIdentifier(x)
    ensures ValidKeys(ks) <==> forall k | k in ks :: NamedResource(k)
  {
    hide ValidIdentifier;
    if ValidNames(xs) {
      forall x | x in xs ensures ValidIdentifier(x) { var i :| 0 <= i < |xs| && xs[i] == x; }
    }
    if forall x | x in xs :: ValidIdentifier(x) {
      forall i | 0 <= i < |xs| ensures ValidIdentifier(xs[i]) { assert xs[i] in xs; }
    }
    if ValidKeys(ks) {
      forall k | k in ks ensures NamedResource(k) { var i :| 0 <= i < |ks| && ks[i] == k; }
    }
    if forall k | k in ks :: NamedResource(k) {
      forall i | 0 <= i < |ks| ensures ks[i].Valid() { assert ks[i] in ks; }
    }
  }

  lemma TidiedSizes(xs: seq<Text>, ks: seq<ResourceKey>)
    ensures TidyNames(xs) == [] <==> xs == []
    ensures TidyResources(ks) == [] <==> ks == []
    ensures |TidyResources(ks)| == |(set k | k in ks)|
  {
    if xs != [] { assert xs[0] in TidyNames(xs); }
    if TidyNames(xs) != [] { assert TidyNames(xs)[0] in xs; }
    if ks != [] { assert ks[0] in TidyResources(ks); }
    if TidyResources(ks) != [] { assert TidyResources(ks)[0] in ks; }
    hide Order.StrictlySorted;
  }

  /** The two checks of a claim that look at its subject. */
  lemma SubjectIff(c: Claim)
    ensures WellFormed(c) && ContentRefusal(Norm(c)).None? <==> SoundSubject(c) && c.generation != 0
  {
    hide TidyNames, TidyResources, GoodCapacity, Plausible, ValidIdentifier;
    match c
    case RackClaim(_, _, capacity, _, _, _) => PlausibleIff(capacity);
    case SharedLinkClaim(_, _, _, capacity, _, _, _) => PlausibleIff(capacity);
    case GatewayClaim(_, _, capacity, _, _, _) => PlausibleIff(capacity);
    case PoolClaim(_, _, _, capacity, _, _) => PlausibleIff(capacity);
    case FailureDomainClaim(_, _, _, members, _, _, _) =>
      NamesIff([], members);
      TidiedSizes([], members);
      hide ValidKeys;
    case ZoneClaim(_, _, _, _, domains, resources, _, _, _) =>
      NamesIff(domains, resources);
      TidiedSizes(domains, resources);
      hide ValidKeys, ValidNames;
    case _ =>
  }

  /** A claim is tidied exactly when it may stand in a sealed declaration. */
  lemma SealableClaimIff(hash: Bytes -> Digest, c: Claim)
    ensures Tidied(hash, c).Success? <==> SealableClaim(hash, c)
  {
    SubjectIff(c);
    StatedIff(c.evidence);
    hide WellFormed, ContentRefusal, SoundSubject, Stated, EvidenceRefusal, ClaimDigest;
  }

  // ----- One list -------------------------------------------------------------

  /** Two claims of one list are about the same thing: a contribution is about its owner
      in its scope, every other claim about its identity. */
  predicate SameSubject(a: Claim, b: Claim) {
    if a.PoolClaim? && b.PoolClaim? then a.owner == b.owner && a.scope == b.scope
    else !a.PoolClaim? && !b.PoolClaim? && a.id == b.id
  }

  /** The tokens of kinds and scopes hold no separator and differ in their length or in
      one of their first two characters. */
  lemma TokensDiffer(j: ResourceKind, k: ResourceKind, s: CapacityScope, t: CapacityScope)
    ensures KindToken(j) == KindToken(k) ==> j == k
    ensures ScopeToken(s) == ScopeToken(t) ==> s == t
  {
    KindMark(j);
    KindMark(k);
    ScopeMark(s);
    ScopeMark(t);
    hide KindToken, ScopeToken;
  }

  /** Length and first character. */
  function MarkOfKind(k: ResourceKind): (nat, nat) {
    match k
    case UnknownResource => (7, 85) case ClusterKind => (7, 67) case PodKind => (3, 80) case RackKind => (4, 82)
    case SharedLinkKind => (11, 83) case GatewayKind => (7, 71) case CapacityPoolKind => (13, 67)
    case FailureDomainKind => (14, 70) case MaintenanceZoneKind => (16, 77) case ObligationKindOfResource => (10, 79)
  }

  /** Length and the first two characters. */
  function MarkOfScope(s: CapacityScope): (nat, nat, nat) {
    match s
    case UnknownScope => (7, 85, 78) case SiteIngress => (12, 83, 73) case SiteEgress => (11, 83, 73)
    case SiteInternal => (13, 83, 73) case RackLocal => (10, 82, 65) case PodLocal => (9, 80, 79)
    case ClusterLocal => (13, 67, 76) case SharedLinkScope => (11, 83, 72) case GatewayScope => (7, 71, 65)
  }

  lemma KindMark(k: ResourceKind)
    ensures var t := KindToken(k); |t| == MarkOfKind(k).0 && t[0] == MarkOfKind(k).1
  {
  }

  predicate Lettered(t: Text) { forall i | 0 <= i < |t| :: 65 <= t[i] <= 95 }

  lemma Letters(s: string)
    requires forall i | 0 <= i < |s| :: 'A' <= s[i] <= '_'
    ensures Lettered(Ascii(s))
  {
  }

  /** A token is made of capital letters and underscores. */
  lemma KindIsLettered(k: ResourceKind)
    ensures Lettered(KindToken(k))
  {
    hide Lettered;
    match k
    case UnknownResource => Letters("UNKNOWN");
    case ClusterKind => Letters("CLUSTER");
    case PodKind => Letters("POD");
    case RackKind => Letters("RACK");
    case SharedLinkKind => Letters("SHARED_LINK");
    case GatewayKind => Letters("GATEWAY");
    case CapacityPoolKind => Letters("CAPACITY_POOL");
    case FailureDomainKind => Letters("FAILURE_DOMAIN");
    case MaintenanceZoneKind => Letters("MAINTENANCE_ZONE");
    case ObligationKindOfResource => Letters("OBLIGATION");
  }

  lemma ScopeMark(s: CapacityScope)
    ensures var t := ScopeToken(s); |t| == MarkOfScope(s).0 && t[0] == MarkOfScope(s).1 && t[1] == MarkOfScope(s).2
  {
  }

  lemma NotBefore(a: Text, x: Text, b: Text, y: Text, separator: u8)
    requires a + [separator] + x == b + [separator] + y
    requires forall i | 0 <= i < |a| :: a[i] != separator
    ensures |a| <= |b|
  {
    assert (a + [separator] + x)[|b|] == separator;
  }

  /** Where a separator that occurs in neither front comes first, the fronts agree. */
  lemma SplitAtFirst(a: Text, x: Text, b: Text, y: Text, separator: u8)
    requires a + [separator] + x == b + [separator] + y
    requires (forall i | 0 <= i < |a| :: a[i] != separator) && (forall i | 0 <= i < |b| :: b[i] != separator)
    ensures a == b && x == y
  {
    NotBefore(a, x, b, y, separator);
    NotBefore(b, y, a, x, separator);
    var whole := a + [separator] + x;
    assert a == whole[..|a|] == b;
    assert x == whole[|a| + 1..] == y;
  }

  lemma IdentifiersHaveNoBar(id: Text)
    requires ValidIdentifier(id)
    ensures forall i | 0 <= i < |id| :: id[i] != 124
  {
  }

  lemma ThreeParts(x: Text, a: Text, s: Text, y: Text, b: Text, t: Text)
    requires x + [58] + a + [124] + s == y + [58] + b + [124] + t
    requires Lettered(x) && Lettered(y)
    requires (forall i | 0 <= i < |a| :: a[i] != 124) && (forall i | 0 <= i < |b| :: b[i] != 124)
    ensures x == y && a == b && s == t
  {
    var v, w := a + [124] + s, b + [124] + t;
    assert x + [58] + v == x + [58] + a + [124] + s;
    assert y + [58] + w == y + [58] + b + [124] + t;
    SplitAtFirst(x, v, y, w, 58);
    SplitAtFirst(a, s, b, t, 124);
  }

  lemma PoolKeysIff(a: Claim, b: Claim)
    requires a.PoolClaim? && b.PoolClaim? && ValidIdentifier(a.owner.id) && ValidIdentifier(b.owner.id)
    requires KeyText(a) == KeyText(b)
    ensures a.owner == b.owner && a.scope == b.scope
  {
    KindIsLettered(a.owner.kind);
    KindIsLettered(b.owner.kind);
    IdentifiersHaveNoBar(a.owner.id);
    IdentifiersHaveNoBar(b.owner.id);
    TokensDiffer(a.owner.kind, b.owner.kind, a.scope, b.scope);
    hide KindToken, ScopeToken, ValidIdentifier, Lettered;
    ThreeParts(KindToken(a.owner.kind), a.owner.id, ScopeToken(a.scope), KindToken(b.owner.kind), b.owner.id, ScopeToken(b.scope));
  }

  /** The key text of sound claims tells them apart exactly by what they are about. */
  lemma KeyTextIff(a: Claim, b: Claim)
    requires a.List() == b.List() && SoundSubject(a) && SoundSubject(b)
    ensures KeyText(a) == KeyText(b) <==> SameSubject(a, b)
  {
    hide KindToken, ScopeToken, ValidIdentifier, Plausible, SoundRequirement;
    if a.PoolClaim? && b.PoolClaim? && KeyText(a) == KeyText(b) { PoolKeysIff(a, b); }
  }

  /** How many claims a list may hold: clusters, pods, racks, links, gateways, then
      contributions, failure domains, zones and obligations. */
  function ListLimit(list: nat): nat
    requires list < 9
  {
    [MAX_CLAIM_LISTS, MAX_CLAIM_LISTS, MAX_CLAIM_LISTS, MAX_CLAIM_LISTS, MAX_CLAIM_LISTS,
     MAX_CAPACITY_CONTRIBUTIONS, MAX_FAILURE_DOMAINS, MAX_MAINTENANCE_ZONES, MAX_OBLIGATIONS][list]
  }

  /** A list that may stand in a sealed declaration. */
  ghost predicate SealableList(hash: Bytes -> Digest, list: nat, claims: seq<Claim>)
    requires list < 9
  {
    && (forall c | c in claims :: SealableClaim(hash, c)) && |claims| <= ListLimit(list)
    && forall a, b | a in claims && b in claims && SameSubject(a, b) ::
         ClaimDigest(hash, Norm(a)) == ClaimDigest(hash, Norm(b))
  }

  lemma SealableListIff(hash: Bytes -> Digest, list: nat, claims: seq<Claim>)
    requires list < 9 && forall c | c in claims :: c.List() == list
    ensures CanonicalList(hash, list, claims).Success? <==> SealableList(hash, list, claims)
  {
    hide CanonicalList, Tidied, SealableClaim, Norm, KeyText, ClaimDigest, SameSubject, SoundSubject;
    CanonicalListIff(hash, list, claims);
    forall c | c in claims ensures Tidied(hash, c).Success? <==> SealableClaim(hash, c) { SealableClaimIff(hash, c); }
    if forall c | c in claims :: SealableClaim(hash, c) {
      forall a, b | a in claims && b in claims ensures KeyText(Norm(a)) == KeyText(Norm(b)) <==> SameSubject(a, b) {
        SoundKeys(hash, a, b);
      }
    }
  }

  lemma SoundKeys(hash: Bytes -> Digest, a: Claim, b: Claim)
    requires SealableClaim(hash, a) && SealableClaim(hash, b) && a.List() == b.List()
    ensures KeyText(Norm(a)) == KeyText(Norm(b)) <==> SameSubject(a, b)
  {
    KeyTextIff(a, b);
    hide SoundSubject, ClaimDigest, KindToken, ScopeToken, TidyNames, TidyResources;
  }

  // ----- A declaration ----------------------------------------------------------

  /** A header that may be sealed, and no more claims than a declaration may hold. */
  predicate SealableHeader(d: Declaration) {
    && Named(d.domain) && ValidIdentifier(d.site) && d.generation != 0
    && d.schema.major == SCHEMA_MAJOR && d.schema.minor <= SCHEMA_MINOR
    && Stated(d.evidence) && ClaimCount(d.lists) <= MAX_CLAIM_LISTS
  }

  lemma HeaderIff(d: Declaration)
    ensures HeaderRefusal(d).None? <==> SealableHeader(d)
  {
    StatedIff(d.evidence);
    hide Stated, EvidenceRefusal, ValidIdentifier, ClaimCount;
  }

  /** A declaration seals exactly when its header may be sealed and so may each of its
      lists: every claim sound and stated on evidence, within the limit, and no two
      claims about the same thing with different digests. */
  lemma SealableIff(hash: Bytes -> Digest, d: Declaration)
    requires d.Typed()
    ensures SealOf(hash, d).Success? <==> SealableHeader(d) && forall i | 0 <= i < 9 :: SealableList(hash, i, d.lists[i])
  {
    hide SealOf, CanonicalList, SealableHeader, SealableList, HeaderRefusal, Content;
    SealsIff(hash, d);
    HeaderIff(d);
    forall i | 0 <= i < 9 ensures CanonicalList(hash, i, d.lists[i]).Success? <==> SealableList(hash, i, d.lists[i]) {
      forall c | c in d.lists[i] ensures c.List() == i { var j :| 0 <= j < |d.lists[i]| && d.lists[i][j] == c; }
      SealableListIff(hash, i, d.lists[i]);
    }
  }

  // ----- Refusals -------------------------------------------------------------

  const CLAIM_REFUSALS: set<Status> := {
    Status.Malformed, Status.Invalid, Status.EvidenceMissing, Status.CapacityOverflow, Status.LimitExceeded,
    Status.DigestMismatchDeclaration}

  const REFUSALS: set<Status> := CLAIM_REFUSALS + {Status.Conflicting, Status.SchemaIncompatible}

  lemma ClaimIsRefusedAs(hash: Bytes -> Digest, c: Claim)
    ensures Tidied(hash, c).Failure? ==> Tidied(hash, c).status in CLAIM_REFUSALS
  {
    hide WellFormed, Norm, ClaimDigest, GoodCapacity;
  }

  lemma {:induction false} ClaimsAreRefusedAs(hash: Bytes -> Digest, claims: seq<Claim>)
    ensures TidyAll(hash, claims).Failure? ==> TidyAll(hash, claims).status in CLAIM_REFUSALS
  {
    hide Tidied;
    if claims != [] {
      ClaimsAreRefusedAs(hash, claims[..|claims| - 1]);
      ClaimIsRefusedAs(hash, claims[|claims| - 1]);
    }
  }

  lemma {:induction false} RunsAreRefusedAs(hash: Bytes -> Digest, items: seq<Claim>)
    ensures Collapse(hash, items).Failure? ==> Collapse(hash, items).status == Status.Conflicting
  {
    hide KeyText, ClaimDigest;
    if items != [] { RunsAreRefusedAs(hash, items[..|items| - 1]); }
  }

  lemma ListIsRefusedAs(hash: Bytes -> Digest, list: nat, claims: seq<Claim>)
    ensures CanonicalList(hash, list, claims).Failure? ==> CanonicalList(hash, list, claims).status in REFUSALS
  {
    ClaimsAreRefusedAs(hash, claims);
    if TidyAll(hash, claims).Success? { RunsAreRefusedAs(hash, Order.StableSort(TidyAll(hash, claims).value, KeyText)); }
    hide TidyAll, Collapse, Order.StableSort, KeyText, Bound;
  }

  lemma {:induction false} ListsAreRefusedAs(hash: Bytes -> Digest, lists: seq<seq<Claim>>)
    ensures CanonicalLists(hash, lists).Failure? ==> CanonicalLists(hash, lists).status in REFUSALS
  {
    hide CanonicalList;
    if lists != [] {
      ListsAreRefusedAs(hash, lists[..|lists| - 1]);
      ListIsRefusedAs(hash, |lists| - 1, lists[|lists| - 1]);
    }
  }

  /** Whatever is not sealed is refused with one of these. */
  lemma SealingRefusedAs(hash: Bytes -> Digest, d: Declaration)
    ensures SealOf(hash, d).Failure? ==> SealOf(hash, d).status in REFUSALS
  {
    ListsAreRefusedAs(hash, d.lists);
    hide CanonicalLists, ClaimCount, ValidIdentifier, Content;
  }
}
