/** What a CURRENT site counts: every build of its ledger, and every contribution its
    members declare exactly when no resource is offered on two different terms. */
module Contributions {
  import opened Model
  import opened RecordCodec
  import opened Seal
  import opened Admission
  import opened Attribution
  import opened Membership
  import opened Decisions
  import opened Capacity
  import opened Ledger
  import opened Maintenance
  import opened Compose
  import opened SealedSites
  import opened SourceBounds

  // ----- What is counted ------------------------------------------------------

  /** Nothing at all is left out of the total. */
  ghost predicate AllCounted(builds: seq<LedgerBuild>) { forall i | 0 <= i < |builds| :: builds[i].counted }

  lemma ScopeIsClaimed(r: ResourceRecord)
    requires ContributionOf(r).Some? && ContributionOf(r).value.scope == UnknownScope
    ensures r.Has(5) && r.pointers[5].PoolClaim? && r.pointers[5].scope == UnknownScope
  {
  }

  /** A resource of a site all of whose admitted members validate has a scope. */
  lemma ContributionHasScope(env: Env, hash: Bytes -> Digest, admissions: Admissions, key: ResourceKey)
    requires Genuine(env, hash) && key in ResourcesOf(env, admissions)
    requires forall d | d in admissions :: Validated(env, admissions[d].record)
    requires ContributionOf(ResourcesOf(env, admissions)[key]).Some?
    ensures ContributionOf(ResourcesOf(env, admissions)[key]).value.scope != UnknownScope
  {
    hide ContributionOf, ResourcesOf, Validate, WellFormed, Claims;
    var r := ResourcesOf(env, admissions)[key];
    if ContributionOf(r).value.scope == UnknownScope {
      ScopeIsClaimed(r);
      PointerIsAClaim(env, admissions, key, 5);
      var d :| d in admissions && Claims(admissions[d], r.pointers[5]);
      assert Validated(env, admissions[d].record);
      PoolsHaveScopes(hash, admissions[d], r.pointers[5]);
    }
  }

  ghost predicate Validated(env: Env, r: PublicationRecord) {
    r.declaration.Some? && env.validate(r.declaration.value).IsOk()
  }

  lemma PoolsHaveScopes(hash: Bytes -> Digest, a: Admission, c: Claim)
    requires a.record.declaration.Some? && Validate(hash, a.record.declaration.value).IsOk() && Claims(a, c) && c.PoolClaim?
    ensures c.scope != UnknownScope
  {
    hide Validate;
    ValidatedIsWellFormed(hash, a.record.declaration.value, c);
  }

  // ----- What is offered ------------------------------------------------------

  /** Two claims offer the same capacity to the same channels in the same scope. */
  predicate SameTerms(b: Claim, c: Claim)
    requires Offer(b).Some? && Offer(c).Some?
  {
    var x, y := Offer(b).value, Offer(c).value;
    x.scope == y.scope && x.capacity == y.capacity && MaskFor(x.scope, x.external) == MaskFor(y.scope, y.external)
  }

  /** Some counted build stands for what the claim offers. */
  ghost predicate Counts(builds: seq<LedgerBuild>, c: Claim) {
    Offer(c).Some? && exists b :: b in builds && b.owner == c.Key() && b.counted && OnTerms(b, Offer(c).value)
  }

  predicate OnTerms(b: LedgerBuild, o: Contribution) {
    b.scope == o.scope && b.capacity == o.capacity && b.mask == MaskFor(o.scope, o.external)
  }

  /** Whatever an admitted declaration offers is counted on its own terms. */
  ghost predicate AllOffersCount(admissions: Admissions, builds: seq<LedgerBuild>) {
    forall d, c | d in admissions && Claims(admissions[d], c) && Offer(c).Some? :: Counts(builds, c)
  }

  /** No resource is offered on two different terms. */
  ghost predicate OneOfferEach(admissions: Admissions) {
    forall d, e, b, c | d in admissions && e in admissions && Claims(admissions[d], b) && Claims(admissions[e], c) ::
      b.Key() == c.Key() && Offer(b).Some? && Offer(c).Some? ==> SameTerms(b, c)
  }

  /** The one declaration does not offer a resource on two different terms. */
  ghost predicate OffersOnce(a: Admission) {
    forall b, c | Claims(a, b) && Claims(a, c) :: b.Key() == c.Key() && Offer(b).Some? && Offer(c).Some? ==> SameTerms(b, c)
  }

  /** A claim that offers something has a build, made from a claim about the same
      resource that offers something. */
  lemma OfferIsBuilt(env: Env, admissions: Admissions, d: MemberDomainKey, c: Claim)
    returns (b: LedgerBuild, e: MemberDomainKey, x: Claim)
    requires d in admissions && Claims(admissions[d], c) && Offer(c).Some?
    ensures c.Key() in ResourcesOf(env, admissions) && e in admissions && Claims(admissions[e], x)
    ensures Offer(x).Some? && x.Key() == c.Key() && OnTerms(b, Offer(x).value) && b.owner == c.Key()
    ensures var resources := ResourcesOf(env, admissions); b in BuildsOf(resources, KeyOrder(resources.Keys))
  {
    hide ResourcesOf, ContributionOf, Claims, Mentions, BuildsOf, KeyOrder;
    var k, resources := c.Key(), ResourcesOf(env, admissions);
    MentionedIsKnown(env, admissions, d, c);
    var r := resources[k];
    PointerIsAClaim(env, admissions, k, c.List());
    assert Pointer(r, c.List()).Some?;
    ContributionIsOffered(r);
    var list :| 2 <= list <= 5 && Pointer(r, list).Some? && Offer(Pointer(r, list).value) == ContributionOf(r);
    x := Pointer(r, list).value;
    PointerIsAClaim(env, admissions, k, list);
    e :| e in admissions && Claims(admissions[e], x);
    b := BuildOf(k, r, ContributionOf(r).value);
    BuildsAt(resources, KeyOrder(resources.Keys), b);
  }

  lemma MentionedIsKnown(env: Env, admissions: Admissions, d: MemberDomainKey, c: Claim)
    requires d in admissions && Claims(admissions[d], c)
    ensures c.Key() in ResourcesOf(env, admissions)
  {
    hide Claims, ResourcesOf, About, Voices, VoiceOf, HearRun, Resolve;
    ResourceAt(env, admissions, c.Key());
    AboutAt(env, admissions, c.Key(), VoiceOf(env, admissions[d], c));
  }

  /** There is one build for each resource. */
  lemma OneBuildEach(resources: Resources, a: LedgerBuild, b: LedgerBuild)
    requires var builds := BuildsOf(resources, KeyOrder(resources.Keys)); a in builds && b in builds && a.owner == b.owner
    ensures a == b
  {
    hide BuildsOf, BuildOf, ContributionOf;
    BuildsAt(resources, KeyOrder(resources.Keys), a);
    BuildsAt(resources, KeyOrder(resources.Keys), b);
  }

  /** When every build is counted, everything that is offered is counted exactly when
      no resource is offered on two different terms. */
  lemma OffersCountIff(env: Env, admissions: Admissions)
    requires var resources := ResourcesOf(env, admissions); AllCounted(BuildsOf(resources, KeyOrder(resources.Keys)))
    ensures var resources := ResourcesOf(env, admissions);
            AllOffersCount(admissions, BuildsOf(resources, KeyOrder(resources.Keys))) <==> OneOfferEach(admissions)
  {
    hide ResourcesOf, BuildsOf, KeyOrder, Claims, Offer, SameTerms;
    var resources := ResourcesOf(env, admissions);
    var builds := BuildsOf(resources, KeyOrder(resources.Keys));
    if AllOffersCount(admissions, builds) {
      forall d, e, b, c | d in admissions && e in admissions && Claims(admissions[d], b) && Claims(admissions[e], c)
        && b.Key() == c.Key() && Offer(b).Some? && Offer(c).Some?
        ensures SameTerms(b, c)
      {
        BothCount(resources, b, c);
      }
    }
    if OneOfferEach(admissions) {
      forall d, c | d in admissions && Claims(admissions[d], c) && Offer(c).Some? ensures Counts(builds, c) {
        var b, e, x := OfferIsBuilt(env, admissions, d, c);
        TermsCarryOver(builds, b, x, c);
      }
    }
  }

  lemma BothCount(resources: Resources, b: Claim, c: Claim)
    requires Offer(b).Some? && Offer(c).Some? && b.Key() == c.Key()
    requires var builds := BuildsOf(resources, KeyOrder(resources.Keys)); Counts(builds, b) && Counts(builds, c)
    ensures SameTerms(b, c)
  {
    hide BuildsOf, KeyOrder, Offer, MaskFor;
    var builds := BuildsOf(resources, KeyOrder(resources.Keys));
    var x :| x in builds && x.owner == b.Key() && x.counted && OnTerms(x, Offer(b).value);
    var y :| y in builds && y.owner == c.Key() && y.counted && OnTerms(y, Offer(c).value);
    OneBuildEach(resources, x, y);
  }

  lemma TermsCarryOver(builds: seq<LedgerBuild>, b: LedgerBuild, x: Claim, c: Claim)
    requires AllCounted(builds) && b in builds && b.owner == c.Key()
    requires Offer(x).Some? && Offer(c).Some? && OnTerms(b, Offer(x).value) && SameTerms(c, x)
    ensures Counts(builds, c)
  {
    hide Offer, MaskFor;
    var i :| 0 <= i < |builds| && builds[i] == b;
    assert b.counted && OnTerms(b, Offer(c).value);
  }

  // ----- A CURRENT site -------------------------------------------------------

  /** When declarations are validated as they are when sealed, a CURRENT site counts
      every build of its ledger: each figure of the total is the exact sum of all of
      them, and the total is stated exactly when no channel is given more than the
      bound. There is one build for each resource, so that everything the members
      offer is counted exactly when no resource is offered on two different terms. */
  lemma CurrentCountsIff(env: Env, hash: Bytes -> Digest, input: CompositionInput)
    requires Readable(env, input) && Genuine(env, hash)
    requires ComposeSite(env, input).Success? && ComposeSite(env, input).value.lifecycle == CurrentSite
    ensures Prepared(input).Success?
    ensures var admissions := AdmissionsFor(env, input, Prepared(input).value);
            var resources := ResourcesOf(env, admissions);
            var builds, ledger := BuildsOf(resources, KeyOrder(resources.Keys)), ComposeSite(env, input).value.capacity;
            && AllCounted(builds) && |ledger.entries| == |builds|
            && (forall c: Channel :: ledger.total.At(c).Known? ==> IsExactly(ledger.total.At(c), Offered(builds, c)))
            && ((forall c: Channel :: ledger.total.At(c).Known?) <==>
                forall c: Channel :: Exact(Offered(builds, c)) <= MAX_CAPACITY_BPS)
            && (AllOffersCount(admissions, builds) <==> OneOfferEach(admissions))
  {
    hide *;
    var e := PreparedFor(env, input);
    var admissions := AdmissionsFor(env, input, e);
    var resources := ResourcesOf(env, admissions);
    var builds := BuildsOf(resources, KeyOrder(resources.Keys));
    CurrentIsSound(env, input);
    var site := ComposeSite(env, input).value;
    SoundnessCounts(env, input, e, site);
    AuthoritativeIsValidated(env, input, e, site);
    BuildsCount(env, hash, admissions, site.capacity.entries);
    forall c: Channel | site.capacity.total.At(c).Known? ensures IsExactly(site.capacity.total.At(c), Offered(builds, c)) {
      AllOffered(builds, Excluded(site.maintenance), c);
      ExactMeans(site.capacity, builds, Excluded(site.maintenance), c);
    }
    StatedIff(site.capacity, builds, Excluded(site.maintenance));
    OffersCountIff(env, admissions);
  }

  /** What all contributions that reach a channel offer it. */
  function Offered(builds: seq<LedgerBuild>, c: Channel): seq<CapacityValue> {
    if builds == [] then []
    else
      var b := builds[|builds| - 1];
      Offered(builds[..|builds| - 1], c) + (if b.mask.Has(c) then [b.capacity.At(c)] else [])
  }

  lemma {:induction false} AllOffered(builds: seq<LedgerBuild>, excluded: set<ResourceKey>, c: Channel)
    requires AllCounted(builds)
    ensures Feed(builds, TotalPart, excluded, c) == Offered(builds, c)
  {
    if builds != [] {
      AllOffered(builds[..|builds| - 1], excluded, c);
      assert builds[|builds| - 1].counted;
    }
  }

  lemma ExactMeans(l: CapacityLedger, builds: seq<LedgerBuild>, excluded: set<ResourceKey>, c: Channel)
    requires CapacityStated(l, builds, excluded) && l.total.At(c).Known?
    ensures IsExactly(l.total.At(c), Feed(builds, TotalPart, excluded, c))
  {
    hide Feed, Exact, IsExactly;
    assert ExactAt(l, builds, excluded, c);
  }

  lemma StatedIff(l: CapacityLedger, builds: seq<LedgerBuild>, excluded: set<ResourceKey>)
    requires CapacityStated(l, builds, excluded) && AllCounted(builds)
    ensures (forall c: Channel :: l.total.At(c).Known?) <==> forall c: Channel :: Exact(Offered(builds, c)) <= MAX_CAPACITY_BPS
  {
    hide Feed, Exact, Offered, AllCounted, ExactAt;
    AllOffered(builds, excluded, Ingress);
    AllOffered(builds, excluded, Egress);
    AllOffered(builds, excluded, Internal);
    var within := Exact(Offered(builds, Ingress)) <= MAX_CAPACITY_BPS && Exact(Offered(builds, Egress)) <= MAX_CAPACITY_BPS
      && Exact(Offered(builds, Internal)) <= MAX_CAPACITY_BPS;
    forall c: Channel ensures within ==> Exact(Offered(builds, c)) <= MAX_CAPACITY_BPS {
      match c case Ingress => case Egress => case Internal =>
    }
  }

  lemma SoundnessCounts(env: Env, input: CompositionInput, e: SiteExpectation, site: ComposedSite)
    requires SoundSite(env, input, e, site)
    ensures var resources := ResourcesOf(env, AdmissionsFor(env, input, e));
            var builds := BuildsOf(resources, KeyOrder(resources.Keys));
            EverythingCounted(site.capacity.entries, builds) && CapacityStated(site.capacity, builds, Excluded(site.maintenance))
    ensures MembersAreAuthoritative(env, input, e)
  {
    hide AdmissionsFor, ResourcesOf, BuildsOf, EverythingCounted, CapacityStated, Excluded, MembersAreAuthoritative,
      RequiredPresent, AllAgreed, AllLinksUp, AllKept, SoundForest, ZonesSettled, MembersOf;
  }

  lemma AuthoritativeIsValidated(env: Env, input: CompositionInput, e: SiteExpectation, site: ComposedSite)
    requires MembersAreAuthoritative(env, input, e)
    ensures var admissions := AdmissionsFor(env, input, e); forall d | d in admissions :: Validated(env, admissions[d].record)
  {
    var admissions := AdmissionsFor(env, input, e);
    hide AdmissionsFor;
    forall d | d in admissions ensures Validated(env, admissions[d].record) {
      IsMember(admissions, e, d);
    }
  }

  lemma BuildsCount(env: Env, hash: Bytes -> Digest, admissions: Admissions, entries: seq<LedgerEntry>)
    requires Genuine(env, hash)
    requires forall d | d in admissions :: Validated(env, admissions[d].record)
    requires var resources := ResourcesOf(env, admissions); EverythingCounted(entries, BuildsOf(resources, KeyOrder(resources.Keys)))
    ensures var resources := ResourcesOf(env, admissions);
            var builds := BuildsOf(resources, KeyOrder(resources.Keys)); AllCounted(builds) && |entries| == |builds|
  {
    hide BuildsOf, ContributionOf, Genuine, Validated, ResourcesOf;
    var resources := ResourcesOf(env, admissions);
    var builds := BuildsOf(resources, KeyOrder(resources.Keys));
    forall i | 0 <= i < |builds| ensures builds[i].counted {
      BuildsAt(resources, KeyOrder(resources.Keys), builds[i]);
      ContributionHasScope(env, hash, admissions, builds[i].owner);
    }
  }

  // ----- One declaration at a time --------------------------------------------

  /** Nothing is offered under the key of a cluster or of a pod, where a claim that
      offers nothing is heard first. */
  ghost predicate PoolsAside(admissions: Admissions) {
    forall d, c | d in admissions && Claims(admissions[d], c) && Offer(c).Some? ::
      !c.Key().kind.ClusterKind? && !c.Key().kind.PodKind?
  }

  /** Offers of one resource on different terms have different digests. */
  ghost predicate ToldApart(env: Env, admissions: Admissions) {
    forall d, e, b, c | d in admissions && e in admissions && Claims(admissions[d], b) && Claims(admissions[e], c) ::
      b.Key() == c.Key() && Offer(b).Some? && Offer(c).Some? && env.claimDigest(b) == env.claimDigest(c) ==> SameTerms(b, c)
  }

  ghost predicate AllTyped(admissions: Admissions) {
    forall d | d in admissions && admissions[d].record.declaration.Some? :: admissions[d].record.declaration.value.Typed()
  }

  lemma {:induction false} NothingEarlier(lists: seq<seq<Claim>>, key: ResourceKey, i: nat, j: nat)
    requires i < |lists| && j < |lists[i]| && lists[i][j].Key() == key
    ensures FirstOf(lists, key).Some?
    ensures exists k, l :: 0 <= k <= i && 0 <= l < |lists[k]| && lists[k][l] == FirstOf(lists, key).value
  {
    var front, last := lists[..|lists| - 1], lists[|lists| - 1];
    if i < |front| {
      NothingEarlier(front, key, i, j);
      var k, l :| 0 <= k <= i && 0 <= l < |front[k]| && front[k][l] == FirstOf(front, key).value;
      assert lists[k][l] == FirstOf(lists, key).value;
    } else if FirstOf(front, key).Some? {
      FirstIsSomewhere(front, key);
      var k, l :| 0 <= k < |front| && 0 <= l < |front[k]| && front[k][l] == FirstOf(front, key).value;
      assert lists[k][l] == FirstOf(lists, key).value;
    } else {
      FirstInList(last, key, j);
      var l :| 0 <= l < |last| && last[l] == FirstIn(last, key).value;
      assert lists[i][l] == FirstOf(lists, key).value;
    }
  }

  lemma {:induction false} FirstInList(claims: seq<Claim>, key: ResourceKey, j: nat)
    requires j < |claims| && claims[j].Key() == key
    ensures FirstIn(claims, key).Some? && exists l :: 0 <= l < |claims| && claims[l] == FirstIn(claims, key).value
  {
    var front := claims[..|claims| - 1];
    if j < |front| {
      FirstInList(front, key, j);
      var l :| 0 <= l < |front| && front[l] == FirstIn(front, key).value;
      assert claims[l] == FirstIn(claims, key).value;
    } else if FirstIn(front, key).Some? {
      FirstInSomewhere(front, key);
      var l :| 0 <= l < |front| && front[l] == FirstIn(front, key).value;
      assert claims[l] == FirstIn(claims, key).value;
    } else {
      assert claims[j] == FirstIn(claims, key).value;
    }
  }

  lemma {:induction false} FirstInSomewhere(claims: seq<Claim>, key: ResourceKey)
    requires FirstIn(claims, key).Some?
    ensures exists l :: 0 <= l < |claims| && claims[l] == FirstIn(claims, key).value
  {
    var front := claims[..|claims| - 1];
    if FirstIn(front, key).Some? {
      FirstInSomewhere(front, key);
      var l :| 0 <= l < |front| && front[l] == FirstIn(front, key).value;
      assert claims[l] == FirstIn(claims, key).value;
    } else {
      assert claims[|claims| - 1] == FirstIn(claims, key).value;
    }
  }

  lemma {:induction false} FirstIsSomewhere(lists: seq<seq<Claim>>, key: ResourceKey)
    requires FirstOf(lists, key).Some?
    ensures exists k, l :: 0 <= k < |lists| && 0 <= l < |lists[k]| && lists[k][l] == FirstOf(lists, key).value
  {
    var front, last := lists[..|lists| - 1], lists[|lists| - 1];
    if FirstOf(front, key).Some? {
      FirstIsSomewhere(front, key);
      var k, l :| 0 <= k < |front| && 0 <= l < |front[k]| && front[k][l] == FirstOf(front, key).value;
      assert lists[k][l] == FirstOf(lists, key).value;
    } else {
      FirstInSomewhere(last, key);
      var l :| 0 <= l < |last| && last[l] == FirstIn(last, key).value;
      assert lists[|lists| - 1][l] == FirstOf(lists, key).value;
    }
  }

  /** Where nothing is offered under the key of a cluster or of a pod, a member that
      offers a resource does so in its first claim about it. */
  lemma FirstOffers(env: Env, admissions: Admissions, d: MemberDomainKey, c: Claim)
    requires PoolsAside(admissions) && AllTyped(admissions)
    requires d in admissions && Claims(admissions[d], c) && Offer(c).Some?
    ensures FirstClaim(admissions[d], c.Key()).Some?
    ensures var x := FirstClaim(admissions[d], c.Key()).value;
            Offer(x).Some? && x.Key() == c.Key() && Claims(admissions[d], x)
  {
    hide FirstOf;
    var lists := admissions[d].record.declaration.value.lists;
    var i, j :| 0 <= i < |lists| && 0 <= j < |lists[i]| && lists[i][j] == c;
    NothingEarlier(lists, c.Key(), i, j);
    FirstIsClaimed(env, admissions[d], c.Key());
    var x := FirstClaim(admissions[d], c.Key()).value;
    var k, l :| 0 <= k <= i && 0 <= l < |lists[k]| && lists[k][l] == x;
    assert x.List() == k && c.List() == i;
  }

  /** What every declaration offers once is offered once by all of them together. */
  lemma OwnWordsSuffice(env: Env, admissions: Admissions)
    requires PoolsAside(admissions) && AllTyped(admissions) && ToldApart(env, admissions)
    requires forall k | k in ResourcesOf(env, admissions) :: AgreedContent(env, admissions, k)
    requires forall d | d in admissions :: OffersOnce(admissions[d])
    ensures OneOfferEach(admissions)
  {
    hide ResourcesOf, PoolsAside, AllTyped, Claims, Offer, SameTerms, FirstClaim;
    forall d, e, b, c | d in admissions && e in admissions && Claims(admissions[d], b) && Claims(admissions[e], c)
      && b.Key() == c.Key() && Offer(b).Some? && Offer(c).Some?
      ensures SameTerms(b, c)
    {
      MentionedIsKnown(env, admissions, d, b);
      FirstOffers(env, admissions, d, b);
      FirstOffers(env, admissions, e, c);
      var x, y := FirstClaim(admissions[d], b.Key()).value, FirstClaim(admissions[e], b.Key()).value;
      assert SameTerms(b, x) && SameTerms(x, y) && SameTerms(y, c);
      SameTermsChain(b, x, y, c);
    }
  }

  lemma SameTermsChain(b: Claim, x: Claim, y: Claim, c: Claim)
    requires Offer(b).Some? && Offer(x).Some? && Offer(y).Some? && Offer(c).Some?
    requires SameTerms(b, x) && SameTerms(x, y) && SameTerms(y, c)
    ensures SameTerms(b, c)
  {
    hide Offer, MaskFor;
  }

  /** With nothing offered under the key of a cluster or of a pod, and digests that
      tell offers apart, a CURRENT site counts everything its members offer exactly
      when each declaration by itself offers every resource on one set of terms. */
  lemma CountsByItselfIff(env: Env, hash: Bytes -> Digest, input: CompositionInput)
    requires Readable(env, input) && Genuine(env, hash)
    requires ComposeSite(env, input).Success? && ComposeSite(env, input).value.lifecycle == CurrentSite
    requires Prepared(input).Success?
    requires var admissions := AdmissionsFor(env, input, Prepared(input).value);
             PoolsAside(admissions) && AllTyped(admissions) && ToldApart(env, admissions)
    ensures var admissions := AdmissionsFor(env, input, Prepared(input).value);
            var resources := ResourcesOf(env, admissions);
            AllOffersCount(admissions, BuildsOf(resources, KeyOrder(resources.Keys))) <==>
              forall d | d in admissions :: OffersOnce(admissions[d])
  {
    hide *;
    var e := PreparedFor(env, input);
    var admissions := AdmissionsFor(env, input, e);
    CurrentCountsIff(env, hash, input);
    CurrentIsAgreed(env, input, e);
    OnceIsOnceEach(admissions);
    if forall d | d in admissions :: OffersOnce(admissions[d]) { OwnWordsSuffice(env, admissions); }
  }

  lemma OnceIsOnceEach(admissions: Admissions)
    ensures OneOfferEach(admissions) ==> forall d | d in admissions :: OffersOnce(admissions[d])
  {
    hide Claims, Offer, SameTerms;
  }

  lemma CurrentIsAgreed(env: Env, input: CompositionInput, e: SiteExpectation)
    requires Readable(env, input) && Prepared(input) == Success(e) && |input.publications| <= MAX_MEMBER_DOMAINS
    requires ComposeSite(env, input).Success? && ComposeSite(env, input).value.lifecycle == CurrentSite
    ensures var admissions := AdmissionsFor(env, input, e);
            forall k | k in ResourcesOf(env, admissions) :: AgreedContent(env, admissions, k)
  {
    hide *;
    var admissions := AdmissionsFor(env, input, e);
    CurrentIsSound(env, input);
    SoundnessAgrees(env, input, e, ComposeSite(env, input).value);
    FewAdmissions(env, input, e);
    AdmittedAreOwn(env, input, e);
    forall k | k in ResourcesOf(env, admissions) ensures AgreedContent(env, admissions, k) {
      AttributedIff(env, admissions, k);
    }
  }

  lemma SoundnessAgrees(env: Env, input: CompositionInput, e: SiteExpectation, site: ComposedSite)
    requires SoundSite(env, input, e, site)
    ensures var resources := ResourcesOf(env, AdmissionsFor(env, input, e)); forall k | k in resources :: resources[k].status == Status.Ok
  {
    hide AdmissionsFor, ResourcesOf, BuildsOf, EverythingCounted, CapacityStated, Excluded, MembersAreAuthoritative,
      RequiredPresent, AllLinksUp, AllKept, SoundForest, ZonesSettled, MembersOf;
  }
}
