/** Three small sites of one member each: one that is CURRENT although its capacity is
    above the bound, one that is CURRENT and leaves out a contribution, and one whose
    composition reads a claim that is not there. */
module Witnesses {
  import opened Model
  import opened RecordCodec
  import opened Seal
  import opened Admission
  import opened Attribution
  import opened Forest
  import opened FailureDomains
  import opened Capacity
  import opened Ledger
  import opened Maintenance
  import opened Verdicts
  import opened Membership
  import opened Decisions
  import opened Compose
  import opened SealedSites
  import opened Contributions
  import Order

  // ----- The input ----------------------------------------------------------

  const MEASURED_NOW := Evidence(Measured, 1, 1, ZERO_DIGEST)
  const FULL := CapacityVector(Known(MAX_CAPACITY_BPS), Known(MAX_CAPACITY_BPS), Known(MAX_CAPACITY_BPS))
  const HOME := MemberDomainKey(ClusterDomain, [97])
  const MEMBER := ExpectedMember(HOME, false, 0, ZERO_DIGEST, true)

  /** Two gateways, each of the largest capacity a claim may state. */
  const FIRST := GatewayClaim([97], 1, FULL, Up, MEASURED_NOW, ZERO_DIGEST)
  const SECOND := GatewayClaim([98], 1, FULL, Up, MEASURED_NOW, ZERO_DIGEST)
  const GATEWAYS: seq<seq<Claim>> := [[], [], [], [], [FIRST, SECOND], [], [], [], []]

  /** A capacity pool under the key of a gateway that nobody declares, and an
      obligation to have a gateway UP. */
  const POOL := PoolClaim(ResourceKey(GatewayKind, [97]), SiteIngress, 1, FULL, MEASURED_NOW, ZERO_DIGEST)
  const DUTY := ObligationClaim([98], MinUpGateways, None, None, 1, false, 1, MEASURED_NOW, ZERO_DIGEST)
  const POOLED: seq<seq<Claim>> := [[], [], [], [], [], [POOL], [], [], [DUTY]]

  /** A gateway, and one pool in two scopes. */
  const SMALL := CapacityVector(Known(1), Known(1), Known(1))
  const GATE := GatewayClaim([97], 1, SMALL, Up, MEASURED_NOW, ZERO_DIGEST)
  const INSIDE := PoolClaim(ResourceKey(CapacityPoolKind, [98]), SiteInternal, 1, SMALL, MEASURED_NOW, ZERO_DIGEST)
  const IN_THE_POD := PoolClaim(ResourceKey(CapacityPoolKind, [98]), PodLocal, 1, SMALL, MEASURED_NOW, ZERO_DIGEST)
  const TWO_SCOPES: seq<seq<Claim>> := [[], [], [], [], [GATE], [INSIDE, IN_THE_POD], [], [], []]

  function Body(lists: seq<seq<Claim>>): Declaration {
    Declaration(HOME, [97], 1, SchemaVersion(1, 0), ZERO_DIGEST, 1, MEASURED_NOW, lists)
  }

  function Declared(hash: Bytes -> Digest, lists: seq<seq<Claim>>): Declaration {
    Body(lists).(digest := hash(Content(Body(lists))))
  }

  function Published(hash: Bytes -> Digest, lists: seq<seq<Claim>>): PublicationRecord {
    PublicationRecord(HOME, 1, Declared(hash, lists).digest, SchemaVersion(1, 0), [97], 1, Incarnation(1, [97]), [97],
      PublishAttempt(1, 1), 1, 1, Some(Declared(hash, lists)))
  }

  function Expected(): SiteExpectation { SiteExpectation([97], SchemaVersion(1, 0), 0, [MEMBER], true) }

  function Given(hash: Bytes -> Digest, lists: seq<seq<Claim>>): CompositionInput {
    CompositionInput([97], 1, 1, Incarnation(1, [97]), 1, Expected(), [Published(hash, lists)], [], [], [])
  }

  // ----- Admission ----------------------------------------------------------

  /** Lists that can be sealed. */
  ghost predicate Tidy(hash: Bytes -> Digest, lists: seq<seq<Claim>>) {
    |lists| == 9 && forall i | 0 <= i < 9 :: |lists[i]| <= 2 && CanonicalList(hash, i, lists[i]).Success?
  }

  lemma TwoAreTidy(hash: Bytes -> Digest, list: nat, claims: seq<Claim>)
    requires list < 9 && |claims| <= 2
    requires forall i | 0 <= i < |claims| :: Tidied(hash, claims[i]).Success?
    requires forall i, j | 0 <= i < j < |claims| :: KeyText(Norm(claims[i])) != KeyText(Norm(claims[j]))
    ensures CanonicalList(hash, list, claims).Success?
  {
    hide CanonicalList, ClaimDigest, Tidied, Norm, KeyText;
    CanonicalListIff(hash, list, claims);
  }

  lemma GatewaysAreTidy(hash: Bytes -> Digest)
    ensures CanonicalList(hash, 4, [FIRST, SECOND]).Success?
  {
    hide CanonicalList, ClaimDigest;
    assert Norm(FIRST) == FIRST && Norm(SECOND) == SECOND;
    TwoAreTidy(hash, 4, [FIRST, SECOND]);
  }

  lemma PoolIsTidy(hash: Bytes -> Digest)
    ensures CanonicalList(hash, 5, [POOL]).Success?
  {
    hide CanonicalList, ClaimDigest, KeyText;
    assert Norm(POOL) == POOL;
    TwoAreTidy(hash, 5, [POOL]);
  }

  lemma DutyIsTidy(hash: Bytes -> Digest)
    ensures CanonicalList(hash, 8, [DUTY]).Success?
  {
    hide CanonicalList, ClaimDigest, KeyText;
    assert Norm(DUTY) == DUTY;
    TwoAreTidy(hash, 8, [DUTY]);
  }

  lemma ScopesAreTidy(hash: Bytes -> Digest)
    ensures CanonicalList(hash, 4, [GATE]).Success? && CanonicalList(hash, 5, [INSIDE, IN_THE_POD]).Success?
  {
    hide CanonicalList, ClaimDigest;
    assert Norm(GATE) == GATE && Norm(INSIDE) == INSIDE && Norm(IN_THE_POD) == IN_THE_POD;
    TwoAreTidy(hash, 4, [GATE]);
    ScopesAreKeyedApart();
    TwoAreTidy(hash, 5, [INSIDE, IN_THE_POD]);
  }

  lemma ScopesAreKeyedApart()
    ensures KeyText(INSIDE) != KeyText(IN_THE_POD)
  {
    var owner := KindToken(CapacityPoolKind) + [58] + [98] + [124];
    assert KeyText(INSIDE)[|owner|..] == ScopeToken(SiteInternal);
    assert KeyText(IN_THE_POD)[|owner|..] == ScopeToken(PodLocal);
    assert ScopeToken(SiteInternal)[0] != ScopeToken(PodLocal)[0];
  }

  lemma AllAreTidy(hash: Bytes -> Digest)
    ensures Tidy(hash, GATEWAYS) && Tidy(hash, POOLED) && Tidy(hash, TWO_SCOPES)
  {
    hide CanonicalList;
    forall i | 0 <= i < 9 ensures CanonicalList(hash, i, []).Success? { TwoAreTidy(hash, i, []); }
    ScopesAreTidy(hash);
    GatewaysAreTidy(hash);
    PoolIsTidy(hash);
    DutyIsTidy(hash);
  }

  lemma {:induction false} FewClaims(lists: seq<seq<Claim>>)
    requires forall i | 0 <= i < |lists| :: |lists[i]| <= 2
    ensures ClaimCount(lists) <= 2 * |lists|
  {
    if lists != [] { FewClaims(lists[..|lists| - 1]); }
  }

  lemma HeaderIsSound(hash: Bytes -> Digest, lists: seq<seq<Claim>>)
    requires Tidy(hash, lists)
    ensures HeaderRefusal(Declared(hash, lists)).None?
  {
    hide ClaimCount, Content, CanonicalList;
    FewClaims(lists);
  }

  lemma ContentIgnoresDigest(hash: Bytes -> Digest, lists: seq<seq<Claim>>)
    ensures Content(Declared(hash, lists)) == Content(Body(lists))
  {
    hide PutLists;
  }

  lemma DeclaredIs(hash: Bytes -> Digest, lists: seq<seq<Claim>>)
    ensures var d := Declared(hash, lists); d.lists == lists && d.digest == hash(Content(Body(lists)))
  {
    hide Content;
  }

  lemma DeclaredIsIntact(env: Env, hash: Bytes -> Digest, lists: seq<seq<Claim>>)
    requires Genuine(env, hash) && Tidy(hash, lists)
    ensures env.validate(Declared(hash, lists)).IsOk()
    ensures env.digestOf(Declared(hash, lists)) == Declared(hash, lists).digest
  {
    hide CanonicalList, Content, Validate, SealOf, HeaderRefusal, Declared;
    var d := Declared(hash, lists);
    DeclaredIs(hash, lists);
    ContentIgnoresDigest(hash, lists);
    ValidatesIff(hash, d);
    SealsIff(hash, d);
    HeaderIsSound(hash, lists);
  }

  lemma GivenIsPrepared(hash: Bytes -> Digest, lists: seq<seq<Claim>>)
    ensures Prepared(Given(hash, lists)) == Success(Expected()) && DistinctDomains([MEMBER])
  {
    var e := Expected();
    hide CanonicalExpectation, Published;
    CanonicalExpectationIff(e);
    var c := CanonicalExpectation(e).value;
    Order.SameSize(c.members, e.members);
    Order.SameElements(c.members, e.members);
    assert MEMBER in c.members;
    assert c.members == [MEMBER];
  }

  function Admitted(env: Env, hash: Bytes -> Digest, lists: seq<seq<Claim>>): Admissions {
    AdmissionsFor(env, Given(hash, lists), Expected())
  }

  lemma OneIsBest(hash: Bytes -> Digest, lists: seq<seq<Claim>>)
    requires Declared(hash, lists).digest != ZERO_DIGEST
    ensures Best([Published(hash, lists)]) == map[HOME := Published(hash, lists)]
  {
    hide Content, Declared;
    assert [Published(hash, lists)][..0] == [];
  }

  lemma PublishedIs(hash: Bytes -> Digest, lists: seq<seq<Claim>>)
    ensures var r, d := Published(hash, lists), Declared(hash, lists);
            && r.domain == HOME && r.generation == 1 && r.site == [97] && r.schema.Supported() && r.observedEpoch == 1
            && r.declaration == Some(d) && r.digest == d.digest && d.evidence == MEASURED_NOW
  {
    hide Content;
  }

  lemma GivenIs(hash: Bytes -> Digest, lists: seq<seq<Claim>>)
    ensures var input := Given(hash, lists);
            && input.site == [97] && input.epoch == 1 && input.now == 1 && input.publications == [Published(hash, lists)]
            && input.retirements == [] && input.revoked == [] && input.reconstructed == []
  {
    hide Published;
  }

  lemma OneIsAuthoritative(env: Env, hash: Bytes -> Digest, lists: seq<seq<Claim>>)
    requires Genuine(env, hash) && Tidy(hash, lists)
    ensures Authoritative(env, Given(hash, lists), Expected(), Published(hash, lists))
  {
    DeclaredIsIntact(env, hash, lists);
    PublishedIs(hash, lists);
    GivenIs(hash, lists);
    hide Genuine, Tidy, Published, Declared, Given;
    assert MEASURED_NOW.Evaluate(1) == Fresh;
    assert MEMBER in Expected().members;
  }

  lemma OneIsAdmitted(env: Env, hash: Bytes -> Digest, lists: seq<seq<Claim>>)
    requires Genuine(env, hash) && Tidy(hash, lists) && Declared(hash, lists).digest != ZERO_DIGEST
    ensures var a := Admitted(env, hash, lists);
            a.Keys == {HOME} && a[HOME].record == Published(hash, lists) && a[HOME].lifecycle == CurrentMember
  {
    hide Admit, Genuine, Tidy, Published, Authoritative, Best;
    OneIsBest(hash, lists);
    OneIsAuthoritative(env, hash, lists);
    CurrentIff(env, Given(hash, lists), Expected(), Published(hash, lists));
  }

  // ----- The resources ------------------------------------------------------

  /** One CURRENT member that says just this. */
  ghost predicate Says(admissions: Admissions, said: seq<Claim>) {
    && admissions.Keys == {HOME} && admissions[HOME].record.domain == HOME && admissions[HOME].lifecycle == CurrentMember
    && forall c :: Claims(admissions[HOME], c) <==> c in said
  }

  lemma ThisIsSaid(env: Env, hash: Bytes -> Digest, lists: seq<seq<Claim>>, said: seq<Claim>)
    requires Genuine(env, hash) && Tidy(hash, lists) && Declared(hash, lists).digest != ZERO_DIGEST
    requires forall c :: InLists(lists, c) <==> c in said
    ensures Says(Admitted(env, hash, lists), said)
  {
    hide Admitted, Genuine, Declared, Tidy;
    OneIsAdmitted(env, hash, lists);
    DeclaredIs(hash, lists);
    var a := Admitted(env, hash, lists)[HOME];
    forall c ensures Claims(a, c) <==> c in said { assert Claims(a, c) <==> InLists(lists, c); }
  }

  lemma TheClaims(c: Claim)
    ensures InLists(GATEWAYS, c) <==> c in [FIRST, SECOND]
    ensures InLists(POOLED, c) <==> c in [POOL, DUTY]
    ensures InLists(TWO_SCOPES, c) <==> c in Scopes()
  {
    assert GATEWAYS[4][0] == FIRST && GATEWAYS[4][1] == SECOND;
    assert POOLED[5][0] == POOL && POOLED[8][0] == DUTY;
    assert TWO_SCOPES[4][0] == GATE && TWO_SCOPES[5][0] == INSIDE && TWO_SCOPES[5][1] == IN_THE_POD;
  }

  /** The resources are those the claims are about. */
  lemma KnownResources(env: Env, admissions: Admissions, said: seq<Claim>)
    requires Says(admissions, said)
    ensures forall k :: k in ResourcesOf(env, admissions) <==> exists c :: c in said && c.Key() == k
  {
    hide Claims, ResourcesOf;
    forall c | c in said ensures c.Key() in ResourcesOf(env, admissions) { MentionedIsKnown(env, admissions, HOME, c); }
    forall k | k in ResourcesOf(env, admissions) ensures exists c :: c in said && c.Key() == k {
      var c := SomeClaim(env, admissions, k);
    }
  }

  lemma IsAttributed(env: Env, admissions: Admissions, said: seq<Claim>, k: ResourceKey)
    requires Says(admissions, said) && k in ResourcesOf(env, admissions)
    ensures ResourcesOf(env, admissions)[k].status == Status.Ok
  {
    hide *;
    OneVoiceForAll(env, admissions, said, k);
    AttributedIff(env, admissions, k);
  }

  lemma OneVoiceForAll(env: Env, admissions: Admissions, said: seq<Claim>, k: ResourceKey)
    requires Says(admissions, said)
    ensures |admissions| <= MAX_MEMBER_DOMAINS && OwnRecords(admissions)
    ensures OnlyCurrentMention(admissions, k) && AgreedContent(env, admissions, k)
  {
    hide Claims, Mentions, FirstClaim;
    assert |admissions.Keys| == 1;
    hide Says;
  }

  /** A resource points to what is said about it. */
  lemma PointerIsSaid(env: Env, admissions: Admissions, said: seq<Claim>, k: ResourceKey, list: nat)
    requires Says(admissions, said) && k in ResourcesOf(env, admissions)
    ensures var p := Pointer(ResourcesOf(env, admissions)[k], list);
            && (p.Some? <==> exists c :: c in said && c.Key() == k && c.List() == list)
            && (p.Some? ==> p.value in said && p.value.Key() == k)
  {
    hide Claims, ResourcesOf;
    PointerIsAClaim(env, admissions, k, list);
    if c :| c in said && c.Key() == k && c.List() == list { assert Claims(admissions[HOME], c); }
  }

  /** A resource has the one claim that is made about it. */
  lemma OnlyItsClaim(env: Env, admissions: Admissions, said: seq<Claim>, c: Claim, list: nat)
    requires Says(admissions, said) && c in said && c.Key() in ResourcesOf(env, admissions)
    requires forall d | d in said && d.Key() == c.Key() :: d == c
    ensures Pointer(ResourcesOf(env, admissions)[c.Key()], list) == if list == c.List() then Some(c) else None
  {
    hide Says, ResourcesOf, Pointer;
    PointerIsSaid(env, admissions, said, c.Key(), list);
  }

  /** An attributed gateway that is UP and full. */
  ghost predicate FullGateway(k: ResourceKey, r: ResourceRecord) {
    && k.kind == GatewayKind && r.status == Status.Ok && ClaimedState(k.kind, r) == Some(Up)
    && ContributionOf(r) == Some(Contribution(GatewayScope, true, FULL))
    && Pointer(r, 7).None? && Pointer(r, 8).None?
  }

  lemma GatewayIsFull(env: Env, admissions: Admissions, c: Claim)
    requires Says(admissions, [FIRST, SECOND]) && (c == FIRST || c == SECOND) && c.Key() in ResourcesOf(env, admissions)
    ensures FullGateway(c.Key(), ResourcesOf(env, admissions)[c.Key()])
  {
    hide Says, ResourcesOf, Pointer;
    IsAttributed(env, admissions, [FIRST, SECOND], c.Key());
    OnlyItsClaim(env, admissions, [FIRST, SECOND], c, 2);
    OnlyItsClaim(env, admissions, [FIRST, SECOND], c, 3);
    OnlyItsClaim(env, admissions, [FIRST, SECOND], c, 4);
    OnlyItsClaim(env, admissions, [FIRST, SECOND], c, 5);
    OnlyItsClaim(env, admissions, [FIRST, SECOND], c, 7);
    OnlyItsClaim(env, admissions, [FIRST, SECOND], c, 8);
  }

  /** Two full gateways and nothing else. */
  ghost predicate TwoFull(resources: Resources) {
    |resources.Keys| == 2 && forall k | k in resources :: FullGateway(k, resources[k])
  }

  lemma ResourcesAreFull(env: Env, admissions: Admissions)
    requires Says(admissions, [FIRST, SECOND])
    ensures TwoFull(ResourcesOf(env, admissions)) && Calm(ResourcesOf(env, admissions))
  {
    hide Says, FullGateway, CalmResource, ResourcesOf;
    KnownResources(env, admissions, [FIRST, SECOND]);
    assert FIRST.Key() in ResourcesOf(env, admissions) && SECOND.Key() in ResourcesOf(env, admissions);
    GatewayIsFull(env, admissions, FIRST);
    GatewayIsFull(env, admissions, SECOND);
    assert ResourcesOf(env, admissions).Keys == {FIRST.Key(), SECOND.Key()};
    FullIsCalm(FIRST.Key(), ResourcesOf(env, admissions)[FIRST.Key()]);
    FullIsCalm(SECOND.Key(), ResourcesOf(env, admissions)[SECOND.Key()]);
  }

  lemma FullIsCalm(k: ResourceKey, r: ResourceRecord)
    requires FullGateway(k, r)
    ensures CalmResource(k, r)
  {
    hide Pointer, ContributionOf, ClaimedState;
  }

  /** An attributed gateway that is UP, or an attributed pool, and nothing that is
      neither. */
  ghost predicate CalmResource(k: ResourceKey, r: ResourceRecord) {
    && r.status == Status.Ok && Pointer(r, 7).None? && Pointer(r, 8).None?
    && (k.kind == CapacityPoolKind || (k.kind == GatewayKind && ClaimedState(k.kind, r) == Some(Up)))
  }

  ghost predicate Calm(resources: Resources) {
    && (forall k | k in resources :: CalmResource(k, resources[k]))
    && exists k :: k in resources && k.kind == GatewayKind
  }

  // ----- The pool in two scopes ---------------------------------------------

  /** A gateway and a pool of one unit each. */
  ghost predicate GateAndPool(resources: Resources) {
    && resources.Keys == {GATE.Key(), INSIDE.Key()}
    && ContributionOf(resources[GATE.Key()]) == Some(Contribution(GatewayScope, true, SMALL))
    && (|| ContributionOf(resources[INSIDE.Key()]) == Some(Contribution(SiteInternal, false, SMALL))
        || ContributionOf(resources[INSIDE.Key()]) == Some(Contribution(PodLocal, false, SMALL)))
  }

  function Scopes(): seq<Claim> { [GATE, INSIDE, IN_THE_POD] }

  lemma GateIsUp(env: Env, admissions: Admissions)
    requires Says(admissions, Scopes()) && GATE.Key() in ResourcesOf(env, admissions)
    ensures var r := ResourcesOf(env, admissions)[GATE.Key()];
            CalmResource(GATE.Key(), r) && ContributionOf(r) == Some(Contribution(GatewayScope, true, SMALL))
  {
    hide Says, ResourcesOf, Pointer;
    IsAttributed(env, admissions, Scopes(), GATE.Key());
    OnlyItsClaim(env, admissions, Scopes(), GATE, 2);
    OnlyItsClaim(env, admissions, Scopes(), GATE, 3);
    OnlyItsClaim(env, admissions, Scopes(), GATE, 4);
    OnlyItsClaim(env, admissions, Scopes(), GATE, 7);
    OnlyItsClaim(env, admissions, Scopes(), GATE, 8);
  }

  /** The pool has no pointer but to one of its two claims. */
  lemma PoolPointer(env: Env, admissions: Admissions, list: nat)
    requires Says(admissions, Scopes()) && INSIDE.Key() in ResourcesOf(env, admissions)
    ensures var p := Pointer(ResourcesOf(env, admissions)[INSIDE.Key()], list);
            if list == 5 then p == Some(INSIDE) || p == Some(IN_THE_POD) else p.None?
  {
    hide Says, ResourcesOf, Pointer;
    PointerIsSaid(env, admissions, Scopes(), INSIDE.Key(), list);
    assert INSIDE in Scopes() && INSIDE.List() == 5;
  }

  lemma PoolIsEither(env: Env, admissions: Admissions)
    requires Says(admissions, Scopes()) && INSIDE.Key() in ResourcesOf(env, admissions)
    ensures var r := ResourcesOf(env, admissions)[INSIDE.Key()];
            && CalmResource(INSIDE.Key(), r)
            && (|| ContributionOf(r) == Some(Contribution(SiteInternal, false, SMALL))
                || ContributionOf(r) == Some(Contribution(PodLocal, false, SMALL)))
  {
    hide Says, ResourcesOf, Pointer, Scopes;
    IsAttributed(env, admissions, Scopes(), INSIDE.Key());
    PoolPointer(env, admissions, 2);
    PoolPointer(env, admissions, 3);
    PoolPointer(env, admissions, 4);
    PoolPointer(env, admissions, 5);
    PoolPointer(env, admissions, 7);
    PoolPointer(env, admissions, 8);
  }

  lemma ScopesAreCalm(env: Env, admissions: Admissions)
    requires Says(admissions, Scopes())
    ensures GateAndPool(ResourcesOf(env, admissions)) && Calm(ResourcesOf(env, admissions))
  {
    hide Says, CalmResource, ContributionOf, ResourcesOf;
    KnownResources(env, admissions, Scopes());
    assert GATE in Scopes() && INSIDE in Scopes();
    GateIsUp(env, admissions);
    PoolIsEither(env, admissions);
    assert ResourcesOf(env, admissions).Keys == {GATE.Key(), INSIDE.Key()};
  }

  /** One unit for the gateway, one for the pool, and no channel unknown. */
  ghost predicate OneUnitEach(b: LedgerBuild, c: LedgerBuild) {
    && b.counted && c.counted && b.capacity == SMALL && c.capacity == SMALL
    && b.mask == ChannelMask(true, true, false) && c.mask == ChannelMask(false, false, true)
  }

  lemma SmallBuilds(resources: Resources)
    requires GateAndPool(resources) && Calm(resources)
    ensures var builds := BuildsOf(resources, KeyOrder(resources.Keys));
            |builds| == 2 && (OneUnitEach(builds[0], builds[1]) || OneUnitEach(builds[1], builds[0]))
  {
    hide ContributionOf, BuildOf, CalmResource, OneUnitEach, KeyOrder;
    var order := KeyOrder(resources.Keys);
    var a, b := order[0], order[1];
    Order.SortedHasNoRepeats(order, Order.ResourceText);
    assert a in order && b in order && order == [a, b];
    assert order[..1] == [a] && [a][..0] == [];
    UnitBuilds(resources);
    assert BuildsOf(resources, [a]) == [BuildOf(a, resources[a], ContributionOf(resources[a]).value)];
  }

  lemma UnitBuilds(resources: Resources)
    requires GateAndPool(resources) && Calm(resources)
    ensures var g, p := resources[GATE.Key()], resources[INSIDE.Key()];
            && ContributionOf(g).Some? && ContributionOf(p).Some?
            && OneUnitEach(BuildOf(GATE.Key(), g, ContributionOf(g).value), BuildOf(INSIDE.Key(), p, ContributionOf(p).value))
  {
    hide ContributionOf;
    assert CalmResource(GATE.Key(), resources[GATE.Key()]) && CalmResource(INSIDE.Key(), resources[INSIDE.Key()]);
  }

  lemma UnitLedger(builds: seq<LedgerBuild>, excluded: set<ResourceKey>)
    requires |builds| == 2 && (OneUnitEach(builds[0], builds[1]) || OneUnitEach(builds[1], builds[0]))
    ensures LedgerOf(builds, excluded).status == Status.Ok
  {
    hide EntriesOf;
    assert builds[..1][..0] == [];
    assert CountedBuilds(builds[..1]) == 1;
    forall c: Channel ensures Feed(builds, TotalPart, excluded, c) == [Known(1)] {
      assert Feed(builds[..1], TotalPart, excluded, c) == [Known(1)] || Feed(builds[..1], TotalPart, excluded, c) == [];
    }
    ExactSnoc([], Known(1));
  }

  lemma CapacityIsStated(resources: Resources, effects: Effects)
    requires GateAndPool(resources) && Calm(resources)
    ensures SiteLedger(resources, effects).status == Status.Ok
  {
    hide *;
    SmallBuilds(resources);
    UnitLedger(BuildsOf(resources, KeyOrder(resources.Keys)), Excluded(effects));
    LedgerIs(resources, effects);
  }

  lemma LedgerIs(resources: Resources, effects: Effects)
    ensures SiteLedger(resources, effects) == LedgerOf(BuildsOf(resources, KeyOrder(resources.Keys)), Excluded(effects))
  {
    hide LedgerOf, BuildsOf, KeyOrder, Excluded;
  }

  // ----- What is found ------------------------------------------------------

  lemma TwoBuilds(resources: Resources, order: seq<ResourceKey>)
    requires TwoFull(resources) && order == KeyOrder(resources.Keys)
    ensures var builds := BuildsOf(resources, order);
            |builds| == 2 && forall i | 0 <= i < 2 :: builds[i].counted && builds[i].mask.ingress && builds[i].capacity == FULL
  {
    hide ContributionOf, FullGateway, BuildOf;
    var a, b := order[0], order[1];
    assert a in order && b in order && order == [a, b];
    FullBuild(a, resources[a]);
    FullBuild(b, resources[b]);
    assert order[..1] == [a] && [a][..0] == [];
    assert BuildsOf(resources, [a]) == [BuildOf(a, resources[a], ContributionOf(resources[a]).value)];
  }

  lemma LedgerOverflows(resources: Resources, effects: Effects)
    requires TwoFull(resources)
    ensures SiteLedger(resources, effects).status == Status.CapacityOverflow
    ensures SiteLedger(resources, effects).total.ingress.UnknownValue?
  {
    hide EntriesOf, CountedBuilds, Excluded, BuildsOf, Feed, TwoFull;
    TwoBuilds(resources, KeyOrder(resources.Keys));
    TwoFeed(BuildsOf(resources, KeyOrder(resources.Keys)), Excluded(effects));
  }

  lemma FullBuild(k: ResourceKey, r: ResourceRecord)
    requires FullGateway(k, r)
    ensures ContributionOf(r).Some?
    ensures var b := BuildOf(k, r, ContributionOf(r).value); b.counted && b.mask == ChannelMask(true, true, false) && b.capacity == FULL
  {
  }

  lemma TwoFeed(builds: seq<LedgerBuild>, excluded: set<ResourceKey>)
    requires |builds| == 2
    requires forall i | 0 <= i < 2 :: builds[i].counted && builds[i].mask.ingress && builds[i].capacity == FULL
    ensures Fed(builds, TotalPart, excluded).Overflows()
    ensures ChannelTotal(Feed(builds, TotalPart, excluded, Ingress)).UnknownValue?
  {
    var front := builds[..1];
    assert front[..0] == [];
    assert Feed(front, TotalPart, excluded, Ingress) == [Known(MAX_CAPACITY_BPS)];
    var fed := Feed(builds, TotalPart, excluded, Ingress);
    assert fed == [Known(MAX_CAPACITY_BPS), Known(MAX_CAPACITY_BPS)];
    ExactSnoc([], Known(MAX_CAPACITY_BPS));
    ExactSnoc([Known(MAX_CAPACITY_BPS)], Known(MAX_CAPACITY_BPS));
    assert fed == [Known(MAX_CAPACITY_BPS)] + [Known(MAX_CAPACITY_BPS)];
  }

  /** No failure domain is declared, so the forest is empty. */
  lemma ForestIsEmpty(admissions: Admissions, resources: Resources)
    requires Calm(resources)
    ensures ForestOf(admissions, resources) == SiteForest([], {}, {}, Status.Ok)
  {
    hide NodesOf, DanglingIn, CalmResource;
    var order := KeyOrder(resources.Keys);
    forall id ensures DomainKey(id) !in order { NotADomain(resources, id); }
    var nodes := NodesOf(admissions, resources, order);
    if nodes != [] { NodeAt(admissions, resources, order, nodes[0]); }
    var dangling := DanglingIn(resources, order);
    forall id ensures id !in dangling { DanglingAt(resources, order, id); }
    assert dangling == {} && nodes == [];
    assert CyclicIds(Parents([])) == {};
  }

  lemma NotADomain(resources: Resources, id: Text)
    requires Calm(resources)
    ensures DomainKey(id) !in resources
  {
  }

  lemma NoZones(resources: Resources, nodes: seq<FailureDomainNode>)
    requires Calm(resources)
    ensures EffectsOf(resources, nodes) == map[]
  {
    hide EffectOf, ClaimedState, Pointer;
    var effects := EffectsOf(resources, nodes);
    forall k ensures k !in effects { assert k in resources ==> CalmResource(k, resources[k]); }
  }

  lemma NoObligations(resources: Resources, forest: SiteForest, available: CapacityVector)
    requires Calm(resources) && LinksAreClaimed(resources)
    ensures ObligationsOf(resources, forest, available) == map[]
  {
    hide VerdictFor, ClaimedState, Pointer, LinksAreClaimed;
    var v := ObligationsOf(resources, forest, available);
    forall k ensures k !in v { assert k in resources ==> CalmResource(k, resources[k]); }
  }

  lemma EverythingIsUp(resources: Resources)
    requires Calm(resources)
    ensures var c := ConnectivityOf(resources);
            c.status == Status.Ok && NumberOf(c, Down) == 0 && NumberOf(c, DegradedState) == 0
  {
    hide Pointer, ClaimedState, Summarize, NumberOf;
    var order := KeyOrder(resources.Keys);
    var gate :| gate in resources && gate.kind == GatewayKind;
    CalmIsUp(gate, resources[gate]);
    forall k | k in resources
      ensures (Connects(k, resources[k]) ==> IsUp(k, resources[k])) && !IsIn(resources, k, Down) && !IsIn(resources, k, DegradedState)
    {
      CalmIsUp(k, resources[k]);
    }
    hide Connects, IsUp, IsIn;
    ConnectivityOkIff(resources);
    NumberIsZeroIff(resources, order, Down);
    NumberIsZeroIff(resources, order, DegradedState);
    SameNumbers(resources, Down);
    SameNumbers(resources, DegradedState);
  }

  lemma CalmIsUp(k: ResourceKey, r: ResourceRecord)
    requires CalmResource(k, r)
    ensures Connects(k, r) <==> k.kind == GatewayKind
    ensures Connects(k, r) ==> IsUp(k, r) && ReportedState(k.kind, r) == Some(Up)
  {
    hide Pointer;
  }

  lemma SameNumbers(resources: Resources, s: ConnectivityState)
    ensures NumberOf(ConnectivityOf(resources), s) == NumberOf(Summarize(resources, KeyOrder(resources.Keys)), s)
  {
    hide Summarize;
  }

  lemma OneMember(admissions: Admissions, said: seq<Claim>)
    requires Says(admissions, said)
    ensures var members, e := MembersOf(admissions, Expected()), Expected();
            && members.Keys == {HOME} && members[HOME].lifecycle == CurrentMember
            && !AllRequiredAbsent(members, e) && MembershipComplete(members, e) && !AnyNonAuthoritative(members)
  {
    hide Claims;
    var members := MembersOf(admissions, Expected());
    assert Expected().members[0] == MEMBER;
    assert ExpectedDomains([MEMBER]) == {HOME} by { assert MEMBER in [MEMBER]; }
  }

  lemma NoMemberConflicts(members: Members)
    requires members.Keys == {HOME} && members[HOME].lifecycle == CurrentMember
    ensures MemberConflicts([], members, DomainOrder(members.Keys)) == []
  {
    var order := DomainOrder(members.Keys);
    assert |order| == 1 && order[0] in order;
    assert order == [HOME] && order[..0] == [];
  }

  lemma NothingConflicts(env: Env, admissions: Admissions, said: seq<Claim>)
    requires Says(admissions, said) && Calm(ResourcesOf(env, admissions))
    ensures ConflictsOf(env, admissions, Expected()) == []
  {
    var resources := ResourcesOf(env, admissions);
    hide ResourcesOf, Says, Calm, ForestOf, EffectsOf, MembersOf, MemberConflicts, OwnershipConflicts;
    NoDisputes(resources);
    ForestIsEmpty(admissions, resources);
    NoZones(resources, []);
    OneMember(admissions, said);
    NoMemberConflicts(MembersOf(admissions, Expected()));
    assert KeyOrder({}) == [];
  }

  lemma NoDisputes(resources: Resources)
    requires Calm(resources)
    ensures OwnershipConflicts(resources, KeyOrder(resources.Keys)) == []
  {
    hide ClaimedState, Pointer;
    forall k | k in resources ensures !Disputed(resources[k]) { assert CalmResource(k, resources[k]); }
  }

  // ----- The verdict --------------------------------------------------------

  /** One CURRENT member, calm resources and a capacity of which no channel is
      unknown make a CURRENT site. */
  lemma SettledFindings(env: Env, input: CompositionInput, admissions: Admissions, said: seq<Claim>)
    requires Says(admissions, said) && LinksAreClaimed(ResourcesOf(env, admissions)) && Calm(ResourcesOf(env, admissions))
    requires forall effects :: SiteLedger(ResourcesOf(env, admissions), effects).status != Status.CapacityUnknown
    ensures var site := SiteFrom(env, input, Expected(), admissions);
            site.lifecycle == CurrentSite && site.capacity == SiteLedger(ResourcesOf(env, admissions), site.maintenance)
  {
    hide *;
    var e, resources := Expected(), ResourcesOf(env, admissions);
    var site := SiteFrom(env, input, e, admissions);
    CurrentFindings(env, input, e, admissions);
    SiteParts(env, input, e, admissions);
    NothingConflicts(env, admissions, said);
    OneMember(admissions, said);
    ForestIsEmpty(admissions, resources);
    ForestIsQuiet();
    NoZones(resources, site.forest.nodes);
    NoObligations(resources, site.forest, site.capacity.available);
    NothingLeftOpen();
    EverythingIsUp(resources);
  }

  lemma ForestIsQuiet()
    ensures !ForestIndeterminate(SiteForest([], {}, {}, Status.Ok))
  {
  }

  lemma NothingLeftOpen()
    ensures !SomeZoneUnknown(map[]) && forall s :: !SomeVerdict(map[], s)
  {
  }

  ghost predicate ComposesCurrent(env: Env, input: CompositionInput) {
    Readable(env, input) && ComposeSite(env, input).Success? && ComposeSite(env, input).value.lifecycle == CurrentSite
  }

  /** What follows for the site of one declaration. */
  lemma CalmIsCurrent(env: Env, hash: Bytes -> Digest, lists: seq<seq<Claim>>, said: seq<Claim>)
    requires Genuine(env, hash) && Says(Admitted(env, hash, lists), said)
    requires var resources := ResourcesOf(env, Admitted(env, hash, lists));
             && Calm(resources)
             && forall effects :: SiteLedger(resources, effects).status != Status.CapacityUnknown
    ensures ComposesCurrent(env, Given(hash, lists))
    ensures var site := ComposeSite(env, Given(hash, lists)).value;
            site.capacity == SiteLedger(ResourcesOf(env, Admitted(env, hash, lists)), site.maintenance)
  {
    hide *;
    var input := Given(hash, lists);
    GivenIsPrepared(hash, lists);
    AdmittedIs(env, hash, lists);
    NothingToRead(ResourcesOf(env, AdmissionsFor(env, input, Expected())));
    ReadableIff(env, input, Expected());
    ComposesTo(env, input, Expected());
    SettledFindings(env, input, AdmissionsFor(env, input, Expected()), said);
    CurrentIs(env, input);
  }

  lemma CurrentIs(env: Env, input: CompositionInput)
    ensures ComposesCurrent(env, input) <==>
      Readable(env, input) && ComposeSite(env, input).Success? && ComposeSite(env, input).value.lifecycle == CurrentSite
  {
    hide Readable, ComposeSite;
  }

  /** A site without obligations reads no claim. */
  lemma NothingToRead(resources: Resources)
    requires Calm(resources)
    ensures LinksAreClaimed(resources)
  {
    hide ClaimedState, Pointer, Judgeable;
    forall o | o in resources ensures !IsObligation(o, resources[o]) { assert CalmResource(o, resources[o]); }
  }

  /** CURRENT does not rule out an overflow: two gateways of the largest capacity
      are counted, their sum is above the bound, the total of their channel is not
      stated, and the site is CURRENT. For every hash that does not give the one
      declaration the digest of nothing. */
  lemma CurrentMayOverflow(env: Env, hash: Bytes -> Digest)
    requires Genuine(env, hash) && Declared(hash, GATEWAYS).digest != ZERO_DIGEST
    ensures var input := Given(hash, GATEWAYS);
            && ComposesCurrent(env, input)
            && var site := ComposeSite(env, input).value;
               site.capacity.status == Status.CapacityOverflow && site.capacity.total.ingress.UnknownValue?
  {
    hide *;
    AllAreTidy(hash);
    forall c ensures InLists(GATEWAYS, c) <==> c in [FIRST, SECOND] { TheClaims(c); }
    ThisIsSaid(env, hash, GATEWAYS, [FIRST, SECOND]);
    var resources := ResourcesOf(env, Admitted(env, hash, GATEWAYS));
    ResourcesAreFull(env, Admitted(env, hash, GATEWAYS));
    forall effects ensures SiteLedger(resources, effects).status == Status.CapacityOverflow
      && SiteLedger(resources, effects).total.ingress.UnknownValue?
    {
      LedgerOverflows(resources, effects);
    }
    CalmIsCurrent(env, hash, GATEWAYS, [FIRST, SECOND]);
    CurrentIs(env, Given(hash, GATEWAYS));
  }

  /** The one member offers the pool in both scopes, and one of the two is not counted. */
  ghost predicate OneScopeIsLost(env: Env, admissions: Admissions) {
    var resources := ResourcesOf(env, admissions);
    var builds := BuildsOf(resources, KeyOrder(resources.Keys));
    && HOME in admissions && Claims(admissions[HOME], INSIDE) && Claims(admissions[HOME], IN_THE_POD)
    && !(Counts(builds, INSIDE) && Counts(builds, IN_THE_POD))
  }

  /** A contribution may be left out without a conflict: one declaration that offers a
      pool in two scopes can be sealed, its site is CURRENT, and one of the two is not
      counted. For every such hash. */
  lemma TwoScopesLoseOne(env: Env, hash: Bytes -> Digest)
    requires Genuine(env, hash) && Declared(hash, TWO_SCOPES).digest != ZERO_DIGEST
    ensures SealOf(hash, Declared(hash, TWO_SCOPES)).Success?
    ensures ComposesCurrent(env, Given(hash, TWO_SCOPES))
    ensures OneScopeIsLost(env, Admitted(env, hash, TWO_SCOPES))
  {
    hide *;
    AllAreTidy(hash);
    forall c ensures InLists(TWO_SCOPES, c) <==> c in Scopes() { TheClaims(c); }
    ThisIsSaid(env, hash, TWO_SCOPES, Scopes());
    DeclaredSeals(env, hash, TWO_SCOPES);
    var admissions := Admitted(env, hash, TWO_SCOPES);
    ScopesAreCalm(env, admissions);
    forall effects ensures SiteLedger(ResourcesOf(env, admissions), effects).status == Status.Ok {
      CapacityIsStated(ResourcesOf(env, admissions), effects);
    }
    CalmIsCurrent(env, hash, TWO_SCOPES, Scopes());
    OneScopeIsBuilt(env, admissions);
  }

  lemma DeclaredSeals(env: Env, hash: Bytes -> Digest, lists: seq<seq<Claim>>)
    requires Genuine(env, hash) && Tidy(hash, lists)
    ensures SealOf(hash, Declared(hash, lists)).Success?
  {
    hide *;
    DeclaredIsIntact(env, hash, lists);
    ValidatesIff(hash, Declared(hash, lists));
    ValidatesAlike(env, hash, Declared(hash, lists));
  }

  lemma ValidatesAlike(env: Env, hash: Bytes -> Digest, d: Declaration)
    requires Genuine(env, hash)
    ensures env.validate(d) == Validate(hash, d)
  {
    hide Validate;
  }

  lemma OneScopeIsBuilt(env: Env, admissions: Admissions)
    requires Says(admissions, Scopes())
    ensures OneScopeIsLost(env, admissions)
  {
    hide BuildsOf, KeyOrder, Counts, ResourcesOf, Claims;
    var resources := ResourcesOf(env, admissions);
    var builds := BuildsOf(resources, KeyOrder(resources.Keys));
    assert INSIDE in Scopes() && IN_THE_POD in Scopes();
    if Counts(builds, INSIDE) && Counts(builds, IN_THE_POD) { BothCount(resources, INSIDE, IN_THE_POD); }
  }

  lemma ReadableIff(env: Env, input: CompositionInput, e: SiteExpectation)
    requires Prepared(input) == Success(e)
    ensures Readable(env, input) <==> LinksAreClaimed(ResourcesOf(env, AdmissionsFor(env, input, e)))
  {
    hide Prepared, LinksAreClaimed, ResourcesOf, AdmissionsFor;
  }

  lemma AdmittedIs(env: Env, hash: Bytes -> Digest, lists: seq<seq<Claim>>)
    ensures Admitted(env, hash, lists) == AdmissionsFor(env, Given(hash, lists), Expected())
  {
    hide AdmissionsFor, Given;
  }

  /** A pool alone under the key of a gateway makes the composition read a claim that
      is not there, as soon as an obligation counts gateways. For every such hash. */
  lemma PoolAloneIsNotReadable(env: Env, hash: Bytes -> Digest)
    requires Genuine(env, hash) && Declared(hash, POOLED).digest != ZERO_DIGEST
    ensures !Readable(env, Given(hash, POOLED))
  {
    hide *;
    var input := Given(hash, POOLED);
    GivenIsPrepared(hash, POOLED);
    AllAreTidy(hash);
    forall c ensures InLists(POOLED, c) <==> c in [POOL, DUTY] { TheClaims(c); }
    ThisIsSaid(env, hash, POOLED, [POOL, DUTY]);
    AdmittedIs(env, hash, POOLED);
    SomethingUnread(env, AdmissionsFor(env, input, Expected()));
    ReadableIff(env, input, Expected());
  }

  lemma SomethingUnread(env: Env, admissions: Admissions)
    requires Says(admissions, [POOL, DUTY])
    ensures !LinksAreClaimed(ResourcesOf(env, admissions))
  {
    hide Says, ResourcesOf;
    var said := [POOL, DUTY];
    KnownResources(env, admissions, said);
    assert POOL in said && DUTY in said;
    IsAttributed(env, admissions, said, POOL.Key());
    IsAttributed(env, admissions, said, DUTY.Key());
    OnlyItsClaim(env, admissions, said, POOL, 4);
    OnlyItsClaim(env, admissions, said, DUTY, 8);
    UnreadGateway(ResourcesOf(env, admissions));
  }

  lemma UnreadGateway(resources: Resources)
    requires POOL.Key() in resources && DUTY.Key() in resources
    requires resources[POOL.Key()].status == Status.Ok && resources[DUTY.Key()].status == Status.Ok
    requires Pointer(resources[POOL.Key()], 4).None? && Pointer(resources[DUTY.Key()], 8) == Some(DUTY)
    ensures !LinksAreClaimed(resources)
  {
    hide Pointer;
    assert IsObligation(DUTY.Key(), resources[DUTY.Key()]);
    assert InScope(POOL.Key(), GatewayKind, None);
    assert ClaimedState(GatewayKind, resources[POOL.Key()]).None?;
    assert !Countable(resources, GatewayKind, None);
  }
}
