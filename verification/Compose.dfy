/** The composition engine: ten stages from publications to one site verdict, and
    what a verdict guarantees. */
module Compose {
  import opened Model
  import opened Admission
  import opened Attribution
  import opened Forest
  import opened FailureDomains
  import opened Capacity
  import opened Ledger
  import opened Maintenance
  import opened Verdicts
  import opened Membership
  import opened Decisions

  // ----- The stages as one function -----------------------------------------

  function ExpectationFor(input: CompositionInput): SiteExpectation {
    if input.expectation.site == [] then input.expectation.(site := input.site) else input.expectation
  }

  /** Refuses nonsense before reading; otherwise the expectation to compose by. */
  function Prepared(input: CompositionInput): Outcome<SiteExpectation> {
    if !ValidIdentifier(input.site) then Failure(Status.Invalid)
    else if input.epoch == 0 || input.generation == 0 then Failure(Status.Invalid)
    else if !input.incarnation.Valid() then Failure(Status.Invalid)
    else if input.now <= 0 then Failure(Status.Invalid)
    else if |input.publications| > MAX_MEMBER_DOMAINS then Failure(Status.LimitExceeded)
    else if |input.retirements| > MAX_MEMBER_DOMAINS then Failure(Status.LimitExceeded)
    else if |input.revoked| > MAX_MEMBER_DOMAINS then Failure(Status.LimitExceeded)
    else if ExpectationFor(input).site != input.site then Failure(Status.SiteMismatch)
    else CanonicalExpectation(ExpectationFor(input))
  }

  function AdmissionsFor(env: Env, input: CompositionInput, e: SiteExpectation): Admissions {
    AdmitAll(env, input, e, Best(input.publications))
  }

  ghost predicate InLists(lists: seq<seq<Claim>>, c: Claim) {
    exists i, j :: 0 <= i < |lists| && 0 <= j < |lists[i]| && lists[i][j] == c
  }

  /** A capacity pool under the key of a link or a gateway stands beside the claim about
      that link or gateway. */
  ghost predicate NoPoolAlone(lists: seq<seq<Claim>>) {
    forall c | InLists(lists, c) && c.PoolClaim? && (c.owner.kind == SharedLinkKind || c.owner.kind == GatewayKind) ::
      exists b :: InLists(lists, b) && !b.PoolClaim? && b.Key() == c.owner
  }

  ghost predicate TameRecord(r: PublicationRecord) { r.declaration.Some? ==> NoPoolAlone(r.declaration.value.lists) }

  /** Every claim that the composition reads is there. */
  ghost predicate Readable(env: Env, input: CompositionInput) {
    Prepared(input).Success? ==> LinksAreClaimed(ResourcesOf(env, AdmissionsFor(env, input, Prepared(input).value)))
  }

  /** It is enough that no pool stands alone under the key of a link or a gateway. */
  lemma NoPoolAloneIsReadable(env: Env, input: CompositionInput)
    requires forall r | r in input.publications :: TameRecord(r)
    ensures Readable(env, input)
  {
    hide Prepared, ResourcesOf, AdmissionsFor, TameRecord, ClaimedState, LinksAreClaimed;
    if Prepared(input).Success? {
      var e := Prepared(input).value;
      var resources := ResourcesOf(env, AdmissionsFor(env, input, e));
      forall k | k in resources && (k.kind == SharedLinkKind || k.kind == GatewayKind)
        ensures ClaimedState(k.kind, resources[k]).Some?
      {
        LinkIsClaimed(env, input, e, k);
      }
      AllClaimed(resources);
    }
  }

  lemma AllClaimed(resources: Resources)
    requires forall k | k in resources && (k.kind == SharedLinkKind || k.kind == GatewayKind) ::
      ClaimedState(k.kind, resources[k]).Some?
    ensures LinksAreClaimed(resources)
  {
    hide ClaimedState, Pointer;
  }

  lemma ReadableLinks(env: Env, input: CompositionInput)
    requires Readable(env, input) && Prepared(input).Success?
    ensures LinksAreClaimed(ResourcesOf(env, AdmissionsFor(env, input, Prepared(input).value)))
  {
    hide Prepared, ResourcesOf, AdmissionsFor, LinksAreClaimed;
  }

  lemma LinkIsClaimed(env: Env, input: CompositionInput, e: SiteExpectation, k: ResourceKey)
    requires forall r | r in input.publications :: TameRecord(r)
    requires k in ResourcesOf(env, AdmissionsFor(env, input, e)) && (k.kind == SharedLinkKind || k.kind == GatewayKind)
    ensures ClaimedState(k.kind, ResourcesOf(env, AdmissionsFor(env, input, e))[k]).Some?
  {
    var admissions := AdmissionsFor(env, input, e);
    hide ResourcesOf, AdmissionsFor, TameRecord, Claims;
    var c := SomeClaim(env, admissions, k);
    var d :| d in admissions && Claims(admissions[d], c);
    AdmittedIsGiven(env, input, e, d);
    var b := ClaimBeside(admissions[d], c);
    PointerIsAClaim(env, admissions, k, b.List());
  }

  lemma AdmittedIsGiven(env: Env, input: CompositionInput, e: SiteExpectation, d: MemberDomainKey)
    requires d in AdmissionsFor(env, input, e)
    ensures AdmissionsFor(env, input, e)[d].record in input.publications
  {
    hide Admit, Best;
    SelectionIsTheMaximum(input.publications, d);
  }

  /** A member that mentions a link or gateway makes a claim about it of its own kind. */
  lemma ClaimBeside(a: Admission, c: Claim) returns (b: Claim)
    requires TameRecord(a.record) && Claims(a, c) && (c.Key().kind == SharedLinkKind || c.Key().kind == GatewayKind)
    ensures Claims(a, b) && b.Key() == c.Key()
    ensures b.List() == if c.Key().kind == SharedLinkKind then 3 else 4
  {
    b := c;
    if c.PoolClaim? {
      var lists := a.record.declaration.value.lists;
      assert InLists(lists, c);
      b :| InLists(lists, b) && !b.PoolClaim? && b.Key() == c.owner;
    }
  }

  lemma SelectedUnderItsDomain(env: Env, input: CompositionInput, e: SiteExpectation, d: MemberDomainKey)
    requires d in AdmissionsFor(env, input, e)
    ensures var r := AdmissionsFor(env, input, e)[d].record; r in input.publications && r.domain == d
  {
    hide Best, Admit;
    SelectionIsTheMaximum(input.publications, d);
  }

  /** Every admission stands under its own domain. */
  lemma AdmittedAreOwn(env: Env, input: CompositionInput, e: SiteExpectation)
    ensures OwnRecords(AdmissionsFor(env, input, e))
  {
    hide AdmissionsFor;
    forall d | d in AdmissionsFor(env, input, e) ensures AdmissionsFor(env, input, e)[d].record.domain == d {
      SelectedUnderItsDomain(env, input, e, d);
    }
  }

  lemma SomeClaim(env: Env, admissions: Admissions, k: ResourceKey) returns (c: Claim)
    requires k in ResourcesOf(env, admissions)
    ensures c.Key() == k && exists d :: d in admissions && Claims(admissions[d], c)
  {
    hide ResourcesOf, Voices, About, HearRun, Resolve, Claims;
    ResourceAt(env, admissions, k);
    var about := About(Voices(env, admissions), k);
    AboutAt(env, admissions, k, about[0]);
    var d, claim :| d in admissions && Claims(admissions[d], claim) && claim.Key() == k
      && about[0] == VoiceOf(env, admissions[d], claim);
    c := claim;
  }

  function OwnershipOf(resources: Resources): map<ResourceKey, Attributed> {
    map k | k in resources ::
      Attributed(Attestors(resources[k]), resources[k].consensus, resources[k].distinct, resources[k].status)
  }

  function ConflictsOf(env: Env, admissions: Admissions, e: SiteExpectation): seq<Conflict> {
    var resources := ResourcesOf(env, admissions);
    var forest := ForestOf(admissions, resources);
    var effects := EffectsOf(resources, forest.nodes);
    var members := MembersOf(admissions, e);
    var c1 := OwnershipConflicts(resources, KeyOrder(resources.Keys));
    var c2 := ForestConflicts(c1, forest, resources);
    var c3 := ZoneConflicts(c2, resources, effects, KeyOrder(effects.Keys));
    MemberConflicts(c3, members, DomainOrder(members.Keys))
  }

  function DeficitsOf(env: Env, admissions: Admissions, e: SiteExpectation): seq<Deficit> {
    var resources := ResourcesOf(env, admissions);
    MembershipDeficits(DanglingDeficits(resources, KeyOrder(resources.Keys)), admissions, e)
  }

  /** The site that the admitted members make up. */
  function SiteFrom(env: Env, input: CompositionInput, e: SiteExpectation, admissions: Admissions): ComposedSite
    requires LinksAreClaimed(ResourcesOf(env, admissions))
  {
    var resources := ResourcesOf(env, admissions);
    var forest := ForestOf(admissions, resources);
    var effects := EffectsOf(resources, forest.nodes);
    var capacity := SiteLedger(resources, effects);
    var connectivity := ConnectivityOf(resources);
    var obligations := ObligationsOf(resources, forest, capacity.available);
    var members := MembersOf(admissions, e);
    var conflicts := ConflictsOf(env, admissions, e);
    var complete := MembershipComplete(members, e);
    var findings := FindingsOf(members, e, conflicts, capacity.status, forest, connectivity, obligations, SomeZoneUnknown(effects));
    var lifecycle := LifecycleOf(findings);
    ComposedSite(
      input.site, input.epoch, input.generation, input.incarnation, input.now,
      members, OwnershipOf(resources), capacity, forest, effects, connectivity, obligations,
      conflicts, DeficitsOf(env, admissions, e),
      complete, AllFresh(members), conflicts != [], capacity.status == Status.CapacityUnknown,
      lifecycle, SiteStatus(lifecycle),
      WithLifecycle(BodyDecisions(admissions, resources, capacity, forest, effects, connectivity, obligations, complete),
                    SiteStatus(lifecycle)))
  }

  function ComposeSite(env: Env, input: CompositionInput): Outcome<ComposedSite>
    requires Readable(env, input)
  {
    var prepared := Prepared(input);
    if prepared.Failure? then Failure(prepared.status)
    else Success(SiteFrom(env, input, prepared.value, AdmissionsFor(env, input, prepared.value)))
  }

  // ----- Arrival order ------------------------------------------------------

  /** The same instructions: everything but the publications is given alike, up
      to the order and repetition of the retired, revoked and recovered domains. */
  ghost predicate SameInstructions(a: CompositionInput, b: CompositionInput) {
    && a.site == b.site && a.epoch == b.epoch && a.generation == b.generation && a.incarnation == b.incarnation
    && a.now == b.now && a.expectation == b.expectation
    && (forall d :: Retired(a, d) <==> Retired(b, d))
    && (forall d :: d in a.revoked <==> d in b.revoked)
    && (forall d :: d in a.reconstructed <==> d in b.reconstructed)
  }

  lemma SameAdmissions(env: Env, a: CompositionInput, b: CompositionInput, e: SiteExpectation)
    requires SameInstructions(a, b) && SameRecords(a.publications, b.publications) && NoTopTies(a.publications)
    ensures AdmissionsFor(env, a, e) == AdmissionsFor(env, b, e)
  {
    SelectionIgnoresOrder(a.publications, b.publications);
    var best := Best(a.publications);
    hide Best, Retired, Find;
    forall d | d in best ensures Admit(env, a, e, best[d]) == Admit(env, b, e, best[d]) {
    }
  }

  /** Arrival order and repetition of publications, retirements, revocations and
      recoveries are irrelevant: within the bounds the same site comes out, unless
      a domain has two different records of the same, highest rank. */
  lemma ArrivalOrderIsIrrelevant(env: Env, a: CompositionInput, b: CompositionInput)
    requires Readable(env, a)
    requires SameInstructions(a, b) && SameRecords(a.publications, b.publications) && NoTopTies(a.publications)
    requires |a.publications| <= MAX_MEMBER_DOMAINS && |b.publications| <= MAX_MEMBER_DOMAINS
    requires |a.retirements| <= MAX_MEMBER_DOMAINS && |b.retirements| <= MAX_MEMBER_DOMAINS
    requires |a.revoked| <= MAX_MEMBER_DOMAINS && |b.revoked| <= MAX_MEMBER_DOMAINS
    ensures Readable(env, b) && ComposeSite(env, a) == ComposeSite(env, b)
  {
    hide AdmissionsFor, CanonicalExpectation, ResourcesOf, LinksAreClaimed;
    assert Prepared(a) == Prepared(b);
    if Prepared(a).Success? {
      var e := Prepared(a).value;
      SameAdmissions(env, a, b, e);
      SiteIgnoresTheRest(env, a, b, e, AdmissionsFor(env, a, e));
    }
  }

  lemma SiteIgnoresTheRest(env: Env, a: CompositionInput, b: CompositionInput, e: SiteExpectation,
      admissions: Admissions)
    requires SameInstructions(a, b) && LinksAreClaimed(ResourcesOf(env, admissions))
    ensures SiteFrom(env, a, e, admissions) == SiteFrom(env, b, e, admissions)
  {
    hide ResourcesOf, ForestOf, EffectsOf, SiteLedger, ConnectivityOf, ObligationsOf, MembersOf, ConflictsOf,
      MembershipComplete, FindingsOf, LifecycleOf, OwnershipOf, DeficitsOf, AllFresh, WithLifecycle, BodyDecisions,
      LinksAreClaimed, SomeZoneUnknown, SiteStatus;
  }

  // ----- What CURRENT guarantees --------------------------------------------

  /** Every member listed is admitted on an authoritative record. */
  ghost predicate MembersAreAuthoritative(env: Env, input: CompositionInput, e: SiteExpectation) {
    var admissions := AdmissionsFor(env, input, e);
    forall d | d in MembersOf(admissions, e) :: d in admissions && Authoritative(env, input, e, admissions[d].record)
  }

  lemma CurrentMembersAreAuthoritative(env: Env, input: CompositionInput, e: SiteExpectation)
    requires DistinctDomains(e.members)
    requires !AnyNonAuthoritative(MembersOf(AdmissionsFor(env, input, e), e))
    ensures MembersAreAuthoritative(env, input, e)
  {
    var admissions := AdmissionsFor(env, input, e);
    var members := MembersOf(admissions, e);
    hide MembersOf, DistinctDomains, Authoritative, Admit, Best;
    forall d | d in members ensures d in admissions && Authoritative(env, input, e, admissions[d].record) {
      assert members[d].lifecycle == CurrentMember;
      CurrentIff(env, input, e, admissions[d].record);
    }
  }

  lemma {:induction false} SomeoneHeard(voices: seq<Voice>)
    requires voices != []
    ensures HearRun(voices).attestations != []
  {
    if |voices| > 1 { SomeoneHeard(voices[..|voices| - 1]); }
  }

  /** When every admitted member is CURRENT, a resource is either attributed or
      disputed. */
  lemma AttributedOrDisputed(env: Env, admissions: Admissions, k: ResourceKey)
    requires k in ResourcesOf(env, admissions)
    requires forall d | d in admissions :: admissions[d].lifecycle == CurrentMember
    ensures var r := ResourcesOf(env, admissions)[k]; r.status == Status.Ok || Disputed(r)
    ensures var r := ResourcesOf(env, admissions)[k]; r.status == Status.Ok ==> r.distinct == 1
  {
    var about := About(Voices(env, admissions), k);
    hide ResourcesOf, Voices, About, HearRun, Claims;
    ResourceAt(env, admissions, k);
    SomeoneHeard(about);
    var heard := HearRun(about).attestations;
    forall i | 0 <= i < |heard| ensures heard[i].authoritative {
      assert heard[i] in heard;
      AttestationsWereSaid(about, heard[i]);
      var v :| v in about && heard[i] == Attestation(v.source, v.content, v.authoritative);
      AboutAt(env, admissions, k, v);
    }
    ContentsCount(heard);
  }

  lemma EverythingAttributed(env: Env, admissions: Admissions)
    requires forall d | d in admissions :: admissions[d].lifecycle == CurrentMember
    requires var resources := ResourcesOf(env, admissions); OwnershipConflicts(resources, KeyOrder(resources.Keys)) == []
    ensures var resources := ResourcesOf(env, admissions);
            AllAgreed(resources)
  {
    var resources := ResourcesOf(env, admissions);
    hide ResourcesOf, OwnershipConflicts, Disputed;
    forall k | k in resources ensures resources[k].status == Status.Ok && resources[k].distinct == 1 {
      AttributedOrDisputed(env, admissions, k);
      assert k in KeyOrder(resources.Keys);
    }
  }

  /** Nothing is left out of the total but what has no scope at all. */
  ghost predicate EverythingCounted(entries: seq<LedgerEntry>, builds: seq<LedgerBuild>) {
    && |entries| == |builds|
    && forall i | 0 <= i < |builds| ::
         entries[i].owner == builds[i].owner && (builds[i].counted || builds[i].scope == UnknownScope)
  }

  lemma {:induction false} EntriesAt(builds: seq<LedgerBuild>, excluded: set<ResourceKey>)
    ensures |EntriesOf(builds, excluded)| == |builds|
    ensures forall i | 0 <= i < |builds| :: EntriesOf(builds, excluded)[i] == EntryOf(builds[i], excluded)
  {
    hide EntryOf;
    if builds != [] { EntriesAt(builds[..|builds| - 1], excluded); }
  }

  lemma AttributedIsCounted(resources: Resources, effects: Effects)
    requires AllAgreed(resources)
    ensures EverythingCounted(SiteLedger(resources, effects).entries, BuildsOf(resources, KeyOrder(resources.Keys)))
  {
    hide *;
    var builds := BuildsOf(resources, KeyOrder(resources.Keys));
    CapacityIsLedger(resources, effects);
    LedgerEntries(builds, Excluded(effects));
    EntriesCounted(resources, KeyOrder(resources.Keys), Excluded(effects));
  }

  lemma EntriesCounted(resources: Resources, order: seq<ResourceKey>, excluded: set<ResourceKey>)
    requires AllAgreed(resources) && forall k | k in order :: k in resources
    ensures EverythingCounted(EntriesOf(BuildsOf(resources, order), excluded), BuildsOf(resources, order))
  {
    hide BuildsOf, EntriesOf, AllAgreed;
    var builds := BuildsOf(resources, order);
    EntriesAt(builds, excluded);
    forall i | 0 <= i < |builds| ensures builds[i].counted || builds[i].scope == UnknownScope {
      AgreedIsCounted(resources, order, builds[i]);
    }
  }

  lemma AgreedIsCounted(resources: Resources, order: seq<ResourceKey>, b: LedgerBuild)
    requires AllAgreed(resources) && (forall k | k in order :: k in resources) && b in BuildsOf(resources, order)
    ensures b.counted || b.scope == UnknownScope
  {
    hide BuildsOf, ContributionOf;
    BuildsAt(resources, order, b);
  }

  lemma LedgerEntries(builds: seq<LedgerBuild>, excluded: set<ResourceKey>)
    ensures LedgerOf(builds, excluded).entries == EntriesOf(builds, excluded)
  {
  }

  /** A ledger that is not unknown states every channel of its total unless a sum
      is above the bound, and states only exact sums. */
  lemma CapacityWhenCurrent(builds: seq<LedgerBuild>, excluded: set<ResourceKey>)
    requires LedgerOf(builds, excluded).status != Status.CapacityUnknown
    ensures CapacityStated(LedgerOf(builds, excluded), builds, excluded)
  {
    hide Feed, EntriesOf, CountedBuilds, Exact, FullyKnown, IsExactly, ZeroFilled, Difference;
    var l, total := LedgerOf(builds, excluded), Fed(builds, TotalPart, excluded);
    forall c: Channel ensures ExactAt(l, builds, excluded, c) { LedgerConserves(builds, excluded, c); }
    forall c: Channel ensures l.total.At(c) == ChannelTotal(total.At(c)) { FedAt(builds, TotalPart, excluded, c); }
    assert l.total.At(Ingress) == ChannelTotal(total.ingress) && l.total.At(Egress) == ChannelTotal(total.egress)
      && l.total.At(Internal) == ChannelTotal(total.internal);
    assert l.status == TotalStatus(total, CountedBuilds(builds));
  }

  /** What a lifecycle is CURRENT for: exactly these findings. An overflow of the
      ledger is not among them. */
  lemma CurrentFindings(env: Env, input: CompositionInput, e: SiteExpectation, admissions: Admissions)
    requires LinksAreClaimed(ResourcesOf(env, admissions))
    ensures var site := SiteFrom(env, input, e, admissions);
            site.lifecycle == CurrentSite <==>
            && site.conflicts == [] && !AllRequiredAbsent(site.members, e) && MembershipComplete(site.members, e)
            && site.capacity.status != Status.CapacityUnknown && !ForestIndeterminate(site.forest)
            && site.connectivity.status != Status.ConnectivityUnknown && !AnyNonAuthoritative(site.members)
            && !SomeZoneUnknown(site.maintenance)
            && !SomeVerdict(site.obligations, Status.ObligationIndeterminate)
            && !SomeVerdict(site.obligations, Status.ObligationViolated)
            && NumberOf(site.connectivity, Down) == 0 && NumberOf(site.connectivity, DegradedState) == 0
  {
    hide ResourcesOf, ForestOf, EffectsOf, SiteLedger, ConnectivityOf, ObligationsOf, MembersOf, ConflictsOf,
      MembershipComplete, OwnershipOf, DeficitsOf, AllFresh, WithLifecycle, BodyDecisions, LinksAreClaimed,
      AllRequiredAbsent, AnyNonAuthoritative, SomeVerdict, ForestIndeterminate, SomeZoneUnknown;
  }

  /** The conflicts of a site are empty only when no stage found one. */
  lemma NoConflictAnywhere(env: Env, admissions: Admissions, e: SiteExpectation)
    requires ConflictsOf(env, admissions, e) == []
    ensures var resources := ResourcesOf(env, admissions);
            var forest := ForestOf(admissions, resources);
            var effects := EffectsOf(resources, forest.nodes);
            var owned := OwnershipConflicts(resources, KeyOrder(resources.Keys));
            && owned == [] && ForestConflicts(owned, forest, resources) == []
            && (forall k | k in effects :: effects[k].status != Status.MaintenanceConflict)
            && (forall d | d in MembersOf(admissions, e) :: MembersOf(admissions, e)[d].lifecycle != ConflictingMember)
  {
    var resources := ResourcesOf(env, admissions);
    var forest := ForestOf(admissions, resources);
    var effects := EffectsOf(resources, forest.nodes);
    var members := MembersOf(admissions, e);
    hide ResourcesOf, ForestOf, EffectsOf, MembersOf, OwnershipConflicts, ForestConflicts, ZoneConflicts,
      MemberConflicts;
    forall k | k in effects ensures k in KeyOrder(effects.Keys) {}
    forall d | d in members ensures d in DomainOrder(members.Keys) {}
  }

  lemma VerdictStatuses(resources: Resources, forest: SiteForest, available: CapacityVector, k: ResourceKey)
    requires LinksAreClaimed(resources) && k in ObligationsOf(resources, forest, available)
    ensures ObligationsOf(resources, forest, available)[k].status
      in {Status.Ok, Status.ObligationViolated, Status.ObligationIndeterminate}
  {
    hide Observe, ObligationsOf;
  }

  ghost predicate AllLinksUp(resources: Resources) {
    && (exists k :: k in resources && Connects(k, resources[k]))
    && forall k | k in resources && Connects(k, resources[k]) :: IsUp(k, resources[k])
  }

  lemma ConnectedWhenCurrent(resources: Resources)
    requires var c := ConnectivityOf(resources);
             && c.status != Status.ConnectivityUnknown && NumberOf(c, Down) == 0 && NumberOf(c, DegradedState) == 0
    ensures AllLinksUp(resources)
  {
    ConnectivityOkIff(resources);
    hide Summarize, IsUp, Connects;
    var c := ConnectivityOf(resources);
    assert c.status == ConnectivityStatus(c.links, c.gateways);
  }

  /** A forest in which nothing is wrong. */
  ghost predicate SoundForest(forest: SiteForest, resources: Resources) {
    && forest.status == Status.Ok && forest.cyclic == {} && forest.dangling == {}
    && forall n | n in forest.nodes :: n.parent.Some? ==> DomainKey(n.parent.value) in resources
  }

  ghost predicate RequiredPresent(members: Members, e: SiteExpectation) {
    exists m :: m in e.members && m.required && Present(members, m.domain)
  }

  /** Every resource is attributed with one content. */
  ghost predicate AllAgreed(resources: Resources) {
    forall k | k in resources :: resources[k].status == Status.Ok && resources[k].distinct == 1
  }

  ghost predicate AllKept(obligations: Obligations) { forall k | k in obligations :: obligations[k].status == Status.Ok }

  /** No zone was refused, and the state of every zone was reported. */
  ghost predicate ZonesSettled(effects: Effects) {
    forall k | k in effects :: !effects[k].status.MaintenanceUnknown? && !effects[k].status.MaintenanceConflict?
  }

  /** A channel of the total that is known is the exact sum of what was counted,
      and splits exactly into what is available and what is excluded. */
  ghost predicate ExactAt(l: CapacityLedger, builds: seq<LedgerBuild>, excluded: set<ResourceKey>, c: Channel) {
    l.total.At(c).Known? ==>
      && IsExactly(l.total.At(c), Feed(builds, TotalPart, excluded, c))
      && IsExactly(l.excluded.At(c), Feed(builds, ExcludedPart, excluded, c))
      && IsExactly(l.available.At(c), Feed(builds, AvailablePart, excluded, c))
      && l.available.At(c).bps + l.excluded.At(c).bps == l.total.At(c).bps
  }

  /** Every figure stated is exact, and every channel of the total is stated
      exactly when no sum was above the bound. */
  ghost predicate CapacityStated(l: CapacityLedger, builds: seq<LedgerBuild>, excluded: set<ResourceKey>) {
    && (forall c: Channel :: ExactAt(l, builds, excluded, c))
    && ((forall c: Channel :: l.total.At(c).Known?) <==> !Fed(builds, TotalPart, excluded).Overflows())
    && l.status == (if Fed(builds, TotalPart, excluded).Overflows() then Status.CapacityOverflow else Status.Ok)
  }

  /** What a CURRENT verdict promises about the resources of a site. */
  ghost predicate SoundResources(resources: Resources, site: ComposedSite) {
    && AllAgreed(resources)
    && EverythingCounted(site.capacity.entries, BuildsOf(resources, KeyOrder(resources.Keys)))
    && AllLinksUp(resources)
    && AllKept(site.obligations)
    && SoundForest(site.forest, resources)
    && ZonesSettled(site.maintenance)
    && CapacityStated(site.capacity, BuildsOf(resources, KeyOrder(resources.Keys)), Excluded(site.maintenance))
  }

  /** Everything a CURRENT verdict promises about a site. */
  ghost predicate SoundSite(env: Env, input: CompositionInput, e: SiteExpectation, site: ComposedSite) {
    && RequiredPresent(site.members, e)
    && MembersAreAuthoritative(env, input, e)
    && site.members == MembersOf(AdmissionsFor(env, input, e), e)
    && SoundResources(ResourcesOf(env, AdmissionsFor(env, input, e)), site)
    && site.membershipComplete && site.conflicts == []
  }

  lemma AllCurrentAdmitted(env: Env, input: CompositionInput, e: SiteExpectation)
    requires !AnyNonAuthoritative(MembersOf(AdmissionsFor(env, input, e), e))
    ensures var admissions := AdmissionsFor(env, input, e); forall d | d in admissions :: admissions[d].lifecycle == CurrentMember
  {
    var admissions := AdmissionsFor(env, input, e);
    var members := MembersOf(admissions, e);
    hide AdmissionsFor, MembersOf;
    forall d | d in admissions ensures admissions[d].lifecycle == CurrentMember {
      assert d in members && members[d] == AdmittedState(admissions[d]);
    }
  }

  /** CURRENT is sound, end to end: it is only ever said of a site with a present
      required member, all of whose listed members count, whose resources are all
      agreed and counted, whose links and gateways are all UP, whose obligations
      are all kept and whose forest is whole. */
  lemma CurrentIsSound(env: Env, input: CompositionInput)
    requires Readable(env, input)
    requires ComposeSite(env, input).Success? && ComposeSite(env, input).value.lifecycle == CurrentSite
    ensures Prepared(input).Success?
    ensures SoundSite(env, input, Prepared(input).value, ComposeSite(env, input).value)
  {
    hide SiteFrom, SoundSite, AdmissionsFor, CanonicalExpectation, LinksAreClaimed, ResourcesOf, DistinctDomains,
      Readable;
    var e := Prepared(input).value;
    ReadableLinks(env, input);
    CanonicalExpectationIff(ExpectationFor(input));
    CurrentIsSoundFor(env, input, e);
  }

  lemma CurrentIsSoundFor(env: Env, input: CompositionInput, e: SiteExpectation)
    requires DistinctDomains(e.members)
    requires LinksAreClaimed(ResourcesOf(env, AdmissionsFor(env, input, e)))
    requires SiteFrom(env, input, e, AdmissionsFor(env, input, e)).lifecycle == CurrentSite
    ensures SoundSite(env, input, e, SiteFrom(env, input, e, AdmissionsFor(env, input, e)))
  {
    hide *;
    var admissions := AdmissionsFor(env, input, e);
    var resources := ResourcesOf(env, admissions);
    var site := SiteFrom(env, input, e, admissions);
    SiteParts(env, input, e, admissions);
    CurrentFindings(env, input, e, admissions);
    AllCurrentAdmitted(env, input, e);
    CurrentMembersAreAuthoritative(env, input, e);
    SomeRequired(site.members, e);
    NoConflictAnywhere(env, admissions, e);
    EverythingAttributed(env, admissions);
    AttributedIsCounted(resources, site.maintenance);
    ConnectedWhenCurrent(resources);
    ForestWhenCurrent(admissions, resources);
    CapacityIsLedger(resources, site.maintenance);
    CapacityWhenCurrent(BuildsOf(resources, KeyOrder(resources.Keys)), Excluded(site.maintenance));
    KeptWhenCurrent(resources, site.forest, site.capacity.available);
    SettledWhenCurrent(site.maintenance);
    SoundParts(env, input, e, site);
  }

  lemma SiteParts(env: Env, input: CompositionInput, e: SiteExpectation, admissions: Admissions)
    requires LinksAreClaimed(ResourcesOf(env, admissions))
    ensures var site := SiteFrom(env, input, e, admissions);
            var resources := ResourcesOf(env, admissions);
            && site.members == MembersOf(admissions, e) && site.forest == ForestOf(admissions, resources)
            && site.maintenance == EffectsOf(resources, site.forest.nodes)
            && site.capacity == SiteLedger(resources, site.maintenance)
            && site.connectivity == ConnectivityOf(resources)
            && site.obligations == ObligationsOf(resources, site.forest, site.capacity.available)
            && site.conflicts == ConflictsOf(env, admissions, e) && site.deficits == DeficitsOf(env, admissions, e)
            && site.membershipComplete == MembershipComplete(site.members, e)
            && site.ownership == OwnershipOf(resources)
            && site.decisions == WithLifecycle(BodyDecisions(admissions, resources, site.capacity, site.forest, site.maintenance,
                 site.connectivity, site.obligations, site.membershipComplete), site.status)
  {
    hide ResourcesOf, ForestOf, EffectsOf, SiteLedger, ConnectivityOf, ObligationsOf, MembersOf, ConflictsOf,
      MembershipComplete, OwnershipOf, DeficitsOf, AllFresh, WithLifecycle, BodyDecisions, LinksAreClaimed,
      FindingsOf, LifecycleOf, SiteStatus, SomeZoneUnknown;
  }

  lemma ForestWhenCurrent(admissions: Admissions, resources: Resources)
    requires var owned := OwnershipConflicts(resources, KeyOrder(resources.Keys));
             ForestConflicts(owned, ForestOf(admissions, resources), resources) == []
    requires !ForestIndeterminate(ForestOf(admissions, resources))
    ensures SoundForest(ForestOf(admissions, resources), resources)
  {
    hide ForestOf, OwnershipConflicts, ForestConflicts;
    QuietForest(admissions, resources, OwnershipConflicts(resources, KeyOrder(resources.Keys)));
  }

  lemma CapacityIsLedger(resources: Resources, effects: Effects)
    ensures SiteLedger(resources, effects) == LedgerOf(BuildsOf(resources, KeyOrder(resources.Keys)), Excluded(effects))
  {
  }

  lemma KeptWhenCurrent(resources: Resources, forest: SiteForest, available: CapacityVector)
    requires LinksAreClaimed(resources)
    requires var v := ObligationsOf(resources, forest, available);
             !SomeVerdict(v, Status.ObligationIndeterminate) && !SomeVerdict(v, Status.ObligationViolated)
    ensures AllKept(ObligationsOf(resources, forest, available))
  {
    var v := ObligationsOf(resources, forest, available);
    hide ObligationsOf, LinksAreClaimed;
    forall k | k in v ensures v[k].status == Status.Ok { VerdictStatuses(resources, forest, available, k); }
  }

  lemma SettledWhenCurrent(effects: Effects)
    requires !SomeZoneUnknown(effects) && forall k | k in effects :: effects[k].status != Status.MaintenanceConflict
    ensures ZonesSettled(effects)
  {
  }

  lemma SoundParts(env: Env, input: CompositionInput, e: SiteExpectation, site: ComposedSite)
    requires exists m :: m in e.members && m.required && Present(site.members, m.domain)
    requires MembersAreAuthoritative(env, input, e) && site.members == MembersOf(AdmissionsFor(env, input, e), e)
    requires var resources := ResourcesOf(env, AdmissionsFor(env, input, e));
             && AllAgreed(resources)
             && EverythingCounted(site.capacity.entries, BuildsOf(resources, KeyOrder(resources.Keys)))
             && AllLinksUp(resources) && SoundForest(site.forest, resources)
             && CapacityStated(site.capacity, BuildsOf(resources, KeyOrder(resources.Keys)), Excluded(site.maintenance))
    requires AllKept(site.obligations) && ZonesSettled(site.maintenance)
    requires site.membershipComplete && site.conflicts == []
    ensures SoundSite(env, input, e, site)
  {
    hide AdmissionsFor, ResourcesOf, Present, MembersAreAuthoritative, MembersOf, EverythingCounted, BuildsOf,
      AllLinksUp,
      SoundForest, AllAgreed, AllKept, ZonesSettled, CapacityStated, Excluded;
  }

  // ----- Provenance and invalidation ----------------------------------------

  lemma {:induction false} AttestorsSpoke(env: Env, admissions: Admissions)
    ensures ResourcesWithin(ResourcesOf(env, admissions), AdmittedSources(admissions))
  {
    var resources := ResourcesOf(env, admissions);
    hide ResourcesOf, Voices, About, HearRun, Claims;
    forall k, s | k in resources && s in Attestors(resources[k]) ensures s in AdmittedSources(admissions) {
      var about := About(Voices(env, admissions), k);
      ResourceAt(env, admissions, k);
      var a :| a in HearRun(about).attestations && a.source == s;
      AttestationsWereSaid(about, a);
      var v :| v in about && a == Attestation(v.source, v.content, v.authoritative);
      AboutAt(env, admissions, k, v);
    }
  }

  lemma EntriesWithin(resources: Resources, effects: Effects, s: set<SourceRef>)
    requires ResourcesWithin(resources, s)
    ensures forall e | e in SiteLedger(resources, effects).entries :: e.attestors <= s
  {
    hide *;
    var builds := BuildsOf(resources, KeyOrder(resources.Keys));
    CapacityIsLedger(resources, effects);
    LedgerEntries(builds, Excluded(effects));
    EntryAttestors(resources, KeyOrder(resources.Keys), Excluded(effects), s);
  }

  lemma EntryAttestors(resources: Resources, order: seq<ResourceKey>, excluded: set<ResourceKey>, s: set<SourceRef>)
    requires ResourcesWithin(resources, s) && forall k | k in order :: k in resources
    ensures forall e | e in EntriesOf(BuildsOf(resources, order), excluded) :: e.attestors <= s
  {
    var builds := BuildsOf(resources, order);
    hide BuildsOf, EntriesOf, ContributionOf, Attestors;
    EntriesAt(builds, excluded);
    forall e | e in EntriesOf(builds, excluded) ensures e.attestors <= s {
      var i :| 0 <= i < |builds| && EntriesOf(builds, excluded)[i] == e;
      BuildsAt(resources, order, builds[i]);
    }
  }

  lemma VerdictsWithin(resources: Resources, forest: SiteForest, available: CapacityVector, s: set<SourceRef>)
    requires LinksAreClaimed(resources) && ResourcesWithin(resources, s)
    ensures var v := ObligationsOf(resources, forest, available); forall k | k in v :: v[k].sources <= s
  {
    var v := ObligationsOf(resources, forest, available);
    hide ObligationsOf, Observe, LinksAreClaimed, Attestors;
    forall k | k in v ensures v[k].sources <= s {
      assert v[k] == VerdictFor(resources, forest, available, k);
    }
  }

  lemma BodyWithin(env: Env, admissions: Admissions, e: SiteExpectation, forest: SiteForest, effects: Effects,
      available: CapacityVector, complete: bool)
    requires LinksAreClaimed(ResourcesOf(env, admissions))
    ensures var resources := ResourcesOf(env, admissions);
            Within(BodyDecisions(admissions, resources, SiteLedger(resources, effects), forest, effects,
              ConnectivityOf(resources), ObligationsOf(resources, forest, available), complete), AdmittedSources(admissions))
  {
    var resources := ResourcesOf(env, admissions);
    var s := AdmittedSources(admissions);
    var verdicts := ObligationsOf(resources, forest, available);
    AttestorsSpoke(env, admissions);
    EntriesWithin(resources, effects, s);
    VerdictsWithin(resources, forest, available, s);
    hide ResourcesOf, ObligationsOf, ResourcesWithin, SiteLedger, ConnectivityOf, OwnershipDecisions, ZoneDecisions,
      ObligationDecisions, LinksAreClaimed, AdmittedSources, SummaryDecisions;
    var opening := OpeningDecisions(admissions, complete);
    OpeningWithin(admissions, complete);
    var d1 := OwnershipDecisions(opening, resources, KeyOrder(resources.Keys));
    OwnershipWithin(opening, resources, KeyOrder(resources.Keys), s);
    var d2 := SummaryDecisions(d1, resources, SiteLedger(resources, effects), forest, ConnectivityOf(resources));
    SummaryWithin(d1, resources, SiteLedger(resources, effects), forest, ConnectivityOf(resources), s);
    var d3 := ZoneDecisions(d2, resources, effects, KeyOrder(effects.Keys));
    ZonesWithin(d2, resources, effects, KeyOrder(effects.Keys), s);
    ObligationsWithin(d3, verdicts, KeyOrder(verdicts.Keys), s);
  }

  lemma OpeningWithin(admissions: Admissions, complete: bool)
    ensures Within(OpeningDecisions(admissions, complete), AdmittedSources(admissions))
  {
    hide AdmittedSources;
  }

  lemma LifecycleWithin(body: seq<Decision>, status: Status, s: set<SourceRef>)
    requires Within(body, s)
    ensures Within(WithLifecycle(body, status), s)
  {
    forall x | x in AllSources(body) ensures x in s { AllSourcesAt(body, x); }
    hide AllSources, Decide;
    DecideWithin(body, SiteLifecycleDecision, NO_SUBJECT, status, AllSources(body), s);
  }

  /** Provenance is closed: every source of every decision of a composed site is
      the source of an admitted record, and so is every attestor. */
  lemma ProvenanceIsAdmitted(env: Env, input: CompositionInput)
    requires Readable(env, input) && ComposeSite(env, input).Success?
    ensures var site := ComposeSite(env, input).value;
            var s := AdmittedSources(AdmissionsFor(env, input, Prepared(input).value));
            Within(site.decisions, s) && forall k | k in site.ownership :: site.ownership[k].attestors <= s
  {
    hide *;
    var e := PreparedFor(env, input);
    var admissions := AdmissionsFor(env, input, e);
    var site := SiteFrom(env, input, e, admissions);
    SiteParts(env, input, e, admissions);
    BodyWithin(env, admissions, e, site.forest, site.maintenance, site.capacity.available, site.membershipComplete);
    LifecycleWithin(BodyDecisions(admissions, ResourcesOf(env, admissions), site.capacity, site.forest, site.maintenance,
      site.connectivity, site.obligations, site.membershipComplete), site.status, AdmittedSources(admissions));
    AttestorsSpoke(env, admissions);
    OwnersWithin(ResourcesOf(env, admissions), AdmittedSources(admissions));
  }

  lemma OwnersWithin(resources: Resources, s: set<SourceRef>)
    requires ResourcesWithin(resources, s)
    ensures var owned := OwnershipOf(resources); forall k | k in owned :: owned[k].attestors <= s
  {
  }

  /** A composition that succeeded went through the stages. */
  lemma PreparedFor(env: Env, input: CompositionInput) returns (e: SiteExpectation)
    requires Readable(env, input) && ComposeSite(env, input).Success?
    ensures Prepared(input) == Success(e) && LinksAreClaimed(ResourcesOf(env, AdmissionsFor(env, input, e)))
    ensures ComposeSite(env, input) == Success(SiteFrom(env, input, e, AdmissionsFor(env, input, e)))
    ensures |input.publications| <= MAX_MEMBER_DOMAINS && DistinctDomains(e.members)
  {
    hide SiteFrom, AdmissionsFor, LinksAreClaimed, ResourcesOf, Readable, CanonicalExpectation,
      DistinctDomains;
    e := Prepared(input).value;
    ReadableLinks(env, input);
    CanonicalExpectationIff(ExpectationFor(input));
  }

  /** A source that was not admitted - another generation of the same domain, for
      one - invalidates nothing. */
  lemma OtherSourcesInvalidateNothing(env: Env, input: CompositionInput, changed: SourceRef)
    requires Readable(env, input) && ComposeSite(env, input).Success?
    requires changed !in AdmittedSources(AdmissionsFor(env, input, Prepared(input).value))
    ensures var site := ComposeSite(env, input).value;
            var r := InvalidateForSource(site, changed);
            && r.invalidated == [] && r.required == {} && r.affectedResources == {} && r.affectedDomains == {}
            && multiset(r.retained) == multiset(Ids(site.decisions))
  {
    hide *;
    var e := PreparedFor(env, input);
    var admissions := AdmissionsFor(env, input, e);
    var site := SiteFrom(env, input, e, admissions);
    ProvenanceIsAdmitted(env, input);
    SiteParts(env, input, e, admissions);
    InvalidationPartitions(site, changed);
    MembersComeFromAdmissions(admissions, e, changed);
    NothingAffected(site, AdmittedSources(admissions), changed);
  }

  lemma MembersComeFromAdmissions(admissions: Admissions, e: SiteExpectation, changed: SourceRef)
    requires changed !in AdmittedSources(admissions)
    ensures var members := MembersOf(admissions, e); forall d | d in members :: members[d].source != Some(changed)
  {
    var members := MembersOf(admissions, e);
    hide MembersOf, Find;
    forall d | d in members ensures members[d].source != Some(changed) {
      if d in admissions { assert admissions[d].record.Source() in AdmittedSources(admissions); }
    }
  }

  lemma NothingAffected(site: ComposedSite, s: set<SourceRef>, changed: SourceRef)
    requires Within(site.decisions, s) && changed !in s
    requires forall k | k in site.ownership :: site.ownership[k].attestors <= s
    requires forall d | d in site.members :: site.members[d].source != Some(changed)
    requires var r := InvalidateForSource(site, changed);
             && multiset(r.invalidated) + multiset(r.retained) == multiset(Ids(site.decisions))
             && (forall id :: id in r.invalidated <==> exists d :: d in site.decisions && d.id == id && changed in d.sources)
    ensures var r := InvalidateForSource(site, changed);
            && r.invalidated == [] && r.required == {} && r.affectedResources == {} && r.affectedDomains == {}
            && multiset(r.retained) == multiset(Ids(site.decisions))
  {
    hide Selected, Ids;
    var r := InvalidateForSource(site, changed);
    if r.invalidated != [] { SomeId(r.invalidated); }
  }

  lemma SomeId(ids: seq<DecisionId>)
    requires ids != []
    ensures exists id :: id in ids
  {
    assert ids[0] in ids;
  }

  /** The source of an admitted record always invalidates the verdict on the site,
      as long as the decisions are within their bound. */
  lemma AdmittedSourceInvalidatesTheVerdict(env: Env, input: CompositionInput, d: MemberDomainKey)
    requires Readable(env, input) && ComposeSite(env, input).Success?
    requires d in AdmissionsFor(env, input, Prepared(input).value)
    requires |ComposeSite(env, input).value.decisions| < MAX_DECISIONS
    ensures var site := ComposeSite(env, input).value;
            var changed := AdmissionsFor(env, input, Prepared(input).value)[d].record.Source();
            DecisionId(SiteLifecycleDecision, NO_SUBJECT) in InvalidateForSource(site, changed).invalidated
  {
    hide *;
    var e := PreparedFor(env, input);
    var admissions := AdmissionsFor(env, input, e);
    var site := SiteFrom(env, input, e, admissions);
    SiteParts(env, input, e, admissions);
    var body := BodyDecisions(admissions, ResourcesOf(env, admissions), site.capacity, site.forest, site.maintenance,
      site.connectivity, site.obligations, site.membershipComplete);
    var changed := admissions[d].record.Source();
    BodyStartsWithMembership(admissions, ResourcesOf(env, admissions), site, body);
    LifecycleIsLonger(body, site.status);
    LifecycleDependsOnAll(body, site.status);
    InvalidationPartitions(site, changed);
    IsAdmitted(admissions, d);
  }

  lemma IsAdmitted(admissions: Admissions, d: MemberDomainKey)
    requires d in admissions
    ensures admissions[d].record.Source() in AdmittedSources(admissions)
  {
  }

  lemma LifecycleIsLonger(body: seq<Decision>, status: Status)
    ensures |body| <= |WithLifecycle(body, status)|
  {
  }

  lemma BodyStartsWithMembership(admissions: Admissions, resources: Resources, site: ComposedSite, body: seq<Decision>)
    requires body == BodyDecisions(admissions, resources, site.capacity, site.forest, site.maintenance,
      site.connectivity, site.obligations, site.membershipComplete)
    ensures exists b :: b in body && b.sources == AdmittedSources(admissions)
  {
    hide OwnershipDecisions, SummaryDecisions, ZoneDecisions, ObligationDecisions, OpeningDecisions, AdmittedSources;
    var o := OpeningDecisions(admissions, site.membershipComplete);
    OpeningIsFirst(admissions, site.membershipComplete);
    assert o <= body;
    assert body[0] == o[0] && body[0] in body;
  }

  // ----- Withdrawal ---------------------------------------------------------

  function Others(publications: seq<PublicationRecord>, d: MemberDomainKey): seq<PublicationRecord> {
    if publications == [] then []
    else
      var r := publications[|publications| - 1];
      var front := Others(publications[..|publications| - 1], d);
      if r.domain == d then front else front + [r]
  }

  lemma {:induction false} BestOfOthers(publications: seq<PublicationRecord>, d: MemberDomainKey)
    ensures Best(Others(publications, d)) == Best(publications) - {d}
    ensures |Others(publications, d)| <= |publications|
    ensures forall r | r in Others(publications, d) :: r in publications
  {
    hide Consider;
    if publications != [] {
      var front, r := publications[..|publications| - 1], publications[|publications| - 1];
      assert publications == front + [r];
      BestOfOthers(front, d);
      ConsiderOther(Best(front), r, d);
      if r.domain != d {
        assert (Others(front, d) + [r])[..|Others(front, d)|] == Others(front, d);
      }
    }
  }

  lemma ConsiderOther(best: Selection, r: PublicationRecord, d: MemberDomainKey)
    ensures r.domain == d ==> Consider(best, r) - {d} == best - {d}
    ensures r.domain != d ==> Consider(best, r) - {d} == Consider(best - {d}, r)
  {
    hide Eligible, Above;
  }

  /** Withdrawing everything a domain published leaves the ownership of every
      resource its admitted declaration does not mention exactly as it was. */
  lemma WithdrawalKeepsOtherOwnership(env: Env, input: CompositionInput, d: MemberDomainKey, key: ResourceKey)
    requires Readable(env, input) && ComposeSite(env, input).Success?
    requires Readable(env, input.(publications := Others(input.publications, d)))
    requires var admissions := AdmissionsFor(env, input, Prepared(input).value);
             d in admissions ==> !Mentions(admissions[d], key)
    ensures var without := input.(publications := Others(input.publications, d));
            && ComposeSite(env, without).Success?
            && var before, after := ComposeSite(env, input).value.ownership, ComposeSite(env, without).value.ownership;
               (key in before <==> key in after) && (key in before ==> before[key] == after[key])
  {
    var without := input.(publications := Others(input.publications, d));
    BestOfOthers(input.publications, d);
    hide *;
    var e := PreparedFor(env, input);
    StillPrepared(input, without);
    ReadableLinks(env, without);
    ComposesTo(env, without, e);
    var admissions := AdmissionsFor(env, input, e);
    AdmissionsWithout(env, input, without, e, d);
    SiteParts(env, input, e, admissions);
    SiteParts(env, without, e, admissions - {d});
    WithdrawalLeavesTheRest(env, admissions, d, key);
    OwnershipAt(ResourcesOf(env, admissions), key);
    OwnershipAt(ResourcesOf(env, admissions - {d}), key);
  }

  lemma OwnershipAt(resources: Resources, key: ResourceKey)
    ensures key in OwnershipOf(resources) <==> key in resources
    ensures key in resources ==>
      (OwnershipOf(resources)[key]
         == Attributed(Attestors(resources[key]), resources[key].consensus, resources[key].distinct, resources[key].status))
  {
  }

  lemma StillPrepared(input: CompositionInput, without: CompositionInput)
    requires without == input.(publications := without.publications) && |without.publications| <= |input.publications|
    requires Prepared(input).Success?
    ensures Prepared(without) == Prepared(input)
  {
    hide CanonicalExpectation;
  }

  lemma ComposesTo(env: Env, input: CompositionInput, e: SiteExpectation)
    requires Readable(env, input) && Prepared(input) == Success(e)
    requires LinksAreClaimed(ResourcesOf(env, AdmissionsFor(env, input, e)))
    ensures ComposeSite(env, input) == Success(SiteFrom(env, input, e, AdmissionsFor(env, input, e)))
  {
    hide SiteFrom, AdmissionsFor, LinksAreClaimed, ResourcesOf, Readable, Prepared;
  }

  lemma AdmissionsWithout(env: Env, input: CompositionInput, without: CompositionInput, e: SiteExpectation,
      d: MemberDomainKey)
    requires without == input.(publications := without.publications)
    requires Best(without.publications) == Best(input.publications) - {d}
    ensures AdmissionsFor(env, without, e) == AdmissionsFor(env, input, e) - {d}
  {
    var best := Best(input.publications);
    hide Best, Find;
    forall x | x in best && x != d ensures Admit(env, without, e, best[x]) == Admit(env, input, e, best[x]) {
    }
  }

  // ----- The composer -------------------------------------------------------

  class Composer {
    const env: Env
    const input: CompositionInput
    var expectation: SiteExpectation
    var admissions: Admissions
    var resources: Resources
    var forest: SiteForest
    var effects: Effects
    var maintenanceUnknown: bool
    var capacity: CapacityLedger
    var connectivity: ConnectivitySummary
    var obligations: Obligations
    var members: Members
    var complete: bool
    var allFresh: bool
    var conflicts: seq<Conflict>
    var deficits: seq<Deficit>
    var lifecycle: SiteLifecycle
    var status: Status
    var decisions: seq<Decision>

    constructor (env: Env, input: CompositionInput)
      ensures this.env == env && this.input == input
    {
      this.env, this.input := env, input;
      expectation, admissions, resources := input.expectation, map[], map[];
      forest, effects, maintenanceUnknown := SiteForest([], {}, {}, Status.Unknown), map[], false;
      capacity := CapacityLedger([], ALL_UNKNOWN, ALL_UNKNOWN, ALL_UNKNOWN, ALL_UNKNOWN, false, Status.Unknown);
      connectivity, obligations, members := NOTHING_CONNECTED, map[], map[];
      complete, allFresh, conflicts, deficits := false, false, [], [];
      lifecycle, status, decisions := IndeterminateSite, Status.NotStarted, [];
    }

    /** Header and expectation. */
    method Prepare() returns (refused: Option<Status>)
      modifies this`expectation
      ensures refused.None? ==> Prepared(input) == Success(expectation)
      ensures refused.Some? ==> Prepared(input) == Failure(refused.value)
    {
      hide CanonicalExpectation, ValidIdentifier;
      if !ValidIdentifier(input.site) { return Some(Status.Invalid); }
      if input.epoch == 0 || input.generation == 0 { return Some(Status.Invalid); }
      if !input.incarnation.Valid() { return Some(Status.Invalid); }
      if input.now <= 0 { return Some(Status.Invalid); }
      if |input.publications| > MAX_MEMBER_DOMAINS { return Some(Status.LimitExceeded); }
      if |input.retirements| > MAX_MEMBER_DOMAINS { return Some(Status.LimitExceeded); }
      if |input.revoked| > MAX_MEMBER_DOMAINS { return Some(Status.LimitExceeded); }
      var e := ExpectationFor(input);
      if e.site != input.site { return Some(Status.SiteMismatch); }
      var canonical := CanonicalExpectation(e);
      if canonical.Failure? { return Some(canonical.status); }
      expectation := canonical.value;
      return None;
    }

    method AdmitMembers()
      modifies this`admissions
      ensures admissions == AdmissionsFor(env, input, expectation)
    {
      hide AdmitAll, Best;
      var best := SelectBest(input.publications);
      admissions := AdmitSelected(env, input, expectation, best);
    }

    method Attribute()
      modifies this`resources, this`conflicts
      ensures resources == ResourcesOf(env, admissions)
      ensures conflicts == OwnershipConflicts(resources, KeyOrder(resources.Keys))
    {
      resources, conflicts := AttributeResources(env, admissions);
    }

    method BuildForest()
      modifies this`forest, this`conflicts, this`deficits
      ensures forest == ForestOf(admissions, resources)
      ensures conflicts == ForestConflicts(old(conflicts), forest, resources)
      ensures deficits == DanglingDeficits(resources, KeyOrder(resources.Keys))
    {
      hide *;
      var built, found, missing := BuildFailureDomains(admissions, resources, conflicts);
      forest, conflicts, deficits := built, found, missing;
    }

    /** Zone effects, refusals, and the ledger they act on. */
    method BuildMaintenance()
      requires forest == ForestOf(admissions, resources)
      modifies this`effects, this`conflicts, this`maintenanceUnknown, this`capacity
      ensures effects == EffectsOf(resources, forest.nodes) && maintenanceUnknown == SomeZoneUnknown(effects)
      ensures conflicts == ZoneConflicts(old(conflicts), resources, effects, KeyOrder(effects.Keys))
      ensures capacity == SiteLedger(resources, effects)
    {
      hide *;
      ForestIdsAreDistinct(admissions, resources);
      var zones := BuildEffects(resources, forest.nodes);
      var excluded, unknown, refusals := FoldEffects(conflicts, resources, zones);
      var builds := CollectLedgerBuilds(resources);
      var ledger := FoldLedger(builds, excluded);
      CapacityIsLedger(resources, zones);
      effects, maintenanceUnknown, conflicts, capacity := zones, unknown, refusals, ledger;
    }

    method Judge()
      requires LinksAreClaimed(resources)
      modifies this`connectivity, this`obligations
      ensures connectivity == ConnectivityOf(resources)
      ensures obligations == ObligationsOf(resources, forest, capacity.available)
    {
      connectivity := BuildConnectivity(resources);
      obligations := BuildObligations(resources, forest, capacity.available);
    }

    method ConcludeMembership()
      requires DistinctDomains(expectation.members)
      modifies this`members, this`complete, this`allFresh, this`conflicts, this`deficits
      ensures members == MembersOf(admissions, expectation)
      ensures complete == MembershipComplete(members, expectation) && allFresh == AllFresh(members)
      ensures conflicts == MemberConflicts(old(conflicts), members, DomainOrder(members.Keys))
      ensures deficits == MembershipDeficits(old(deficits), admissions, expectation)
    {
      hide *;
      var listed, whole, recent, disputes, shortfalls := BuildMembership(admissions, expectation, conflicts, deficits);
      members, complete, allFresh, conflicts, deficits := listed, whole, recent, disputes, shortfalls;
    }

    /** The one verdict, and every decision with its sources. */
    method ConcludeVerdict()
      modifies this`lifecycle, this`status, this`decisions
      ensures lifecycle == LifecycleOf(FindingsOf(members, expectation, conflicts, capacity.status, forest, connectivity,
                                                  obligations, maintenanceUnknown))
      ensures status == SiteStatus(lifecycle)
      ensures decisions == WithLifecycle(BodyDecisions(admissions, resources, capacity, forest, effects, connectivity,
                                                       obligations, complete), status)
    {
      hide *;
      var verdict, code := BuildLifecycle(members, expectation, conflicts, capacity.status, forest, connectivity,
        obligations, maintenanceUnknown);
      var made := BuildDecisions(admissions, resources, capacity, forest, effects, connectivity, obligations, complete, code);
      lifecycle, status, decisions := verdict, code, made;
    }

    /** The figures of the resource stages. */
    ghost predicate Measured()
      reads this
    {
      && resources == ResourcesOf(env, admissions)
      && forest == ForestOf(admissions, resources)
      && effects == EffectsOf(resources, forest.nodes) && maintenanceUnknown == SomeZoneUnknown(effects)
      && capacity == SiteLedger(resources, effects)
      && conflicts == ZoneConflicts(ForestConflicts(OwnershipConflicts(resources, KeyOrder(resources.Keys)), forest, resources),
                                    resources, effects, KeyOrder(effects.Keys))
      && deficits == DanglingDeficits(resources, KeyOrder(resources.Keys))
    }

    method MeasureResources()
      modifies this`resources, this`forest, this`effects, this`maintenanceUnknown, this`capacity, this`conflicts, this`deficits
      ensures Measured()
    {
      hide ResourcesOf, ForestOf, EffectsOf, SomeZoneUnknown, SiteLedger, ZoneConflicts, ForestConflicts,
        OwnershipConflicts,
        DanglingDeficits;
      Attribute();
      BuildForest();
      BuildMaintenance();
    }

    /** The figures of the later stages. */
    ghost predicate Judged()
      reads this
      requires LinksAreClaimed(resources)
    {
      && connectivity == ConnectivityOf(resources)
      && obligations == ObligationsOf(resources, forest, capacity.available)
      && members == MembersOf(admissions, expectation)
      && complete == MembershipComplete(members, expectation) && allFresh == AllFresh(members)
      && lifecycle == LifecycleOf(FindingsOf(members, expectation, conflicts, capacity.status, forest, connectivity,
                                             obligations, maintenanceUnknown))
      && status == SiteStatus(lifecycle)
      && decisions == WithLifecycle(BodyDecisions(admissions, resources, capacity, forest, effects, connectivity,
                                                  obligations, complete), status)
    }

    method JudgeMembers()
      requires DistinctDomains(expectation.members) && LinksAreClaimed(resources)
      modifies this`connectivity, this`obligations, this`members, this`complete, this`allFresh, this`conflicts, this`deficits
      ensures connectivity == ConnectivityOf(resources)
      ensures obligations == ObligationsOf(resources, forest, capacity.available)
      ensures members == MembersOf(admissions, expectation)
      ensures complete == MembershipComplete(members, expectation) && allFresh == AllFresh(members)
      ensures conflicts == MemberConflicts(old(conflicts), members, DomainOrder(members.Keys))
      ensures deficits == MembershipDeficits(old(deficits), admissions, expectation)
    {
      hide *;
      Judge();
      ConcludeMembership();
    }

    method JudgeSite()
      requires DistinctDomains(expectation.members) && LinksAreClaimed(resources)
      modifies this`connectivity, this`obligations, this`members, this`complete, this`allFresh, this`conflicts,
        this`deficits, this`lifecycle, this`status, this`decisions
      ensures Judged()
      ensures conflicts == MemberConflicts(old(conflicts), members, DomainOrder(members.Keys))
      ensures deficits == MembershipDeficits(old(deficits), admissions, expectation)
    {
      hide ConnectivityOf, ObligationsOf, MembersOf, MembershipComplete, AllFresh, LifecycleOf, FindingsOf, SiteStatus,
        WithLifecycle, BodyDecisions, MemberConflicts, MembershipDeficits, LinksAreClaimed, DistinctDomains;
      JudgeMembers();
      ConcludeVerdict();
    }

    method MeasureAdmitted()
      requires LinksAreClaimed(ResourcesOf(env, AdmissionsFor(env, input, expectation)))
      modifies this`admissions, this`resources, this`forest, this`effects, this`maintenanceUnknown, this`capacity,
        this`conflicts, this`deficits
      ensures admissions == AdmissionsFor(env, input, expectation) && LinksAreClaimed(resources)
      ensures Measured()
    {
      hide ResourcesOf, ForestOf, EffectsOf, SomeZoneUnknown, SiteLedger, ZoneConflicts, ForestConflicts,
        OwnershipConflicts,
        DanglingDeficits, LinksAreClaimed, AdmissionsFor;
      AdmitMembers();
      MeasureResources();
    }

    /** Admission, measurement and judgement, in that order. */
    method Stages()
      requires LinksAreClaimed(ResourcesOf(env, AdmissionsFor(env, input, expectation)))
      requires DistinctDomains(expectation.members)
      modifies this
      ensures expectation == old(expectation) && admissions == AdmissionsFor(env, input, expectation)
      ensures resources == ResourcesOf(env, admissions) && LinksAreClaimed(resources)
      ensures forest == ForestOf(admissions, resources)
      ensures effects == EffectsOf(resources, forest.nodes) && maintenanceUnknown == SomeZoneUnknown(effects)
      ensures capacity == SiteLedger(resources, effects)
      ensures conflicts == ConflictsOf(env, admissions, expectation)
      ensures deficits == DeficitsOf(env, admissions, expectation)
      ensures Judged()
    {
      hide ResourcesOf, ForestOf, EffectsOf, SomeZoneUnknown, SiteLedger, ZoneConflicts, ForestConflicts,
        OwnershipConflicts,
        DanglingDeficits, ConnectivityOf, ObligationsOf, MembersOf, MembershipComplete, AllFresh, LifecycleOf, FindingsOf,
        SiteStatus, WithLifecycle, BodyDecisions, MemberConflicts, MembershipDeficits, LinksAreClaimed, DistinctDomains,
        AdmissionsFor, ConflictsOf;
      MeasureAdmitted();
      JudgeSite();
      ConflictStages(env, admissions, expectation);
    }

    method Report() returns (site: ComposedSite)
      ensures site == ComposedSite(
        input.site, input.epoch, input.generation, input.incarnation, input.now,
        members, OwnershipOf(resources), capacity, forest, effects, connectivity, obligations,
        conflicts, deficits, complete, allFresh, conflicts != [], capacity.status == Status.CapacityUnknown,
        lifecycle, status, decisions)
    {
      site := ComposedSite(
        input.site, input.epoch, input.generation, input.incarnation, input.now,
        members, OwnershipOf(resources), capacity, forest, effects, connectivity, obligations,
        conflicts, deficits, complete, allFresh, conflicts != [], capacity.status == Status.CapacityUnknown,
        lifecycle, status, decisions);
    }

    /** The stages in order on a prepared expectation. */
    method RunStages() returns (site: ComposedSite)
      requires LinksAreClaimed(ResourcesOf(env, AdmissionsFor(env, input, expectation)))
      requires DistinctDomains(expectation.members)
      modifies this
      ensures expectation == old(expectation) && LinksAreClaimed(ResourcesOf(env, AdmissionsFor(env, input, expectation)))
      ensures site == SiteFrom(env, input, expectation, AdmissionsFor(env, input, expectation))
    {
      hide ResourcesOf, ForestOf, EffectsOf, SomeZoneUnknown, SiteLedger, DeficitsOf, ConnectivityOf,
        ObligationsOf, MembersOf,
        MembershipComplete, AllFresh, LifecycleOf, FindingsOf, SiteStatus, WithLifecycle, BodyDecisions, LinksAreClaimed,
        DistinctDomains, AdmissionsFor, SiteFrom, ConflictsOf, OwnershipOf;
      Stages();
      site := Report();
      SiteParts(env, input, expectation, admissions);
      SiteVerdict(env, input, expectation, admissions);
    }

    /** Nothing is published unless every stage ran. */
    method Run() returns (outcome: Outcome<ComposedSite>)
      requires Readable(env, input)
      modifies this
      ensures outcome == ComposeSite(env, input)
    {
      hide *;
      var refused := Prepare();
      if refused.Some? {
        RefusedAs(env, input, refused.value);
        return Failure(refused.value);
      }
      DistinctAfterPreparation(input);
      ReadableLinks(env, input);
      var site := RunStages();
      ComposesTo(env, input, expectation);
      outcome := Success(site);
    }
  }

  lemma ForestIdsAreDistinct(admissions: Admissions, resources: Resources)
    ensures DistinctIds(ForestOf(admissions, resources).nodes)
  {
    var order := KeyOrder(resources.Keys);
    var nodes := NodesOf(admissions, resources, order);
    hide NodesOf, Parents, DanglingIn, DistinctIds;
    NodesAreDistinct(admissions, resources, order);
    ResolvedKeepsParents(Parents(nodes), nodes);
  }

  lemma RefusedAs(env: Env, input: CompositionInput, status: Status)
    requires Readable(env, input) && Prepared(input) == Failure(status)
    ensures ComposeSite(env, input) == Failure(status)
  {
    hide Prepared, Readable, SiteFrom, AdmissionsFor, LinksAreClaimed, ResourcesOf;
  }

  lemma DistinctAfterPreparation(input: CompositionInput)
    requires Prepared(input).Success?
    ensures DistinctDomains(Prepared(input).value.members)
  {
    hide CanonicalExpectation, DistinctDomains;
    CanonicalExpectationIff(ExpectationFor(input));
  }

  lemma ConflictStages(env: Env, admissions: Admissions, e: SiteExpectation)
    ensures var resources := ResourcesOf(env, admissions);
            var forest := ForestOf(admissions, resources);
            var effects := EffectsOf(resources, forest.nodes);
            var members := MembersOf(admissions, e);
            ConflictsOf(env, admissions, e) == MemberConflicts(
              ZoneConflicts(ForestConflicts(OwnershipConflicts(resources, KeyOrder(resources.Keys)), forest, resources),
                            resources, effects, KeyOrder(effects.Keys)),
              members, DomainOrder(members.Keys))
  {
    hide ResourcesOf, ForestOf, EffectsOf, MembersOf, OwnershipConflicts, ForestConflicts, ZoneConflicts,
      MemberConflicts;
  }

  lemma SiteVerdict(env: Env, input: CompositionInput, e: SiteExpectation, admissions: Admissions)
    requires LinksAreClaimed(ResourcesOf(env, admissions))
    ensures var site := SiteFrom(env, input, e, admissions);
            var resources := ResourcesOf(env, admissions);
            && site.site == input.site && site.epoch == input.epoch && site.generation == input.generation
            && site.incarnation == input.incarnation && site.composedAt == input.now
            && site.deficits == DeficitsOf(env, admissions, e)
            && site.allEvidenceFresh == AllFresh(site.members) && site.anyConflict == (site.conflicts != [])
            && site.anyUnknownCapacity == (site.capacity.status == Status.CapacityUnknown)
            && site.lifecycle == LifecycleOf(FindingsOf(site.members, e, site.conflicts, site.capacity.status, site.forest,
                 site.connectivity, site.obligations, SomeZoneUnknown(site.maintenance)))
            && site.status == SiteStatus(site.lifecycle)
  {
    hide ResourcesOf, ForestOf, EffectsOf, SiteLedger, ConnectivityOf, ObligationsOf, MembersOf, ConflictsOf,
      MembershipComplete, OwnershipOf, DeficitsOf, AllFresh, WithLifecycle, BodyDecisions, LinksAreClaimed, FindingsOf, LifecycleOf, SiteStatus, SomeZoneUnknown;
  }
}
