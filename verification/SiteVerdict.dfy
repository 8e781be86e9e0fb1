/** The verdict on a site: which inputs are composed at all, what each lifecycle stands
    for, and which findings come first. */
module SiteVerdict {
  import opened Model
  import opened Admission
  import opened Attribution
  import opened FailureDomains
  import opened Maintenance
  import opened Verdicts
  import opened Membership
  import opened Decisions
  import opened Compose

  // ----- What is composed -----------------------------------------------------

  predicate SoundHeader(input: CompositionInput) {
    && ValidIdentifier(input.site) && input.epoch != 0 && input.generation != 0
    && SoundIncarnation(input.incarnation) && input.now > 0
  }

  predicate WithinBounds(input: CompositionInput) {
    && |input.publications| <= MAX_MEMBER_DOMAINS && |input.retirements| <= MAX_MEMBER_DOMAINS
    && |input.revoked| <= MAX_MEMBER_DOMAINS
  }

  /** The expectation is for this site, or for none in particular. */
  predicate ForThisSite(input: CompositionInput) {
    input.expectation.site == input.site || input.expectation.site == []
  }

  /** An input is composed exactly when its header is sound, it is within the bounds,
      and its expectation is for this site and can be put in order. */
  lemma ComposedIff(input: CompositionInput)
    ensures Prepared(input).Success? <==>
      && SoundHeader(input) && WithinBounds(input) && ForThisSite(input)
      && CanonicalExpectation(input.expectation.(site := input.site)).Success?
    ensures Prepared(input).Success? ==> Prepared(input) == CanonicalExpectation(input.expectation.(site := input.site))
  {
    hide CanonicalExpectation, ValidIdentifier;
    if ForThisSite(input) { assert ExpectationFor(input) == input.expectation.(site := input.site); }
  }

  // ----- The lifecycle --------------------------------------------------------

  /** No required member reported, and whoever did is CURRENT. */
  ghost predicate NobodyRequiredReported(admissions: Admissions, e: SiteExpectation) {
    && e.members != []
    && (forall d | d in admissions :: admissions[d].lifecycle == CurrentMember)
    && forall m | m in e.members && m.required :: m.domain !in admissions
  }

  ghost predicate EveryRequiredCurrent(admissions: Admissions, e: SiteExpectation) {
    e.members != []
    && forall m | m in e.members && m.required :: m.domain in admissions && admissions[m.domain].lifecycle == CurrentMember
  }

  /** Somebody listed does not count: an admitted member that is not CURRENT, or an
      expected one that never reported. */
  ghost predicate SomebodyDoesNotCount(admissions: Admissions, e: SiteExpectation) {
    || (exists d :: d in admissions && admissions[d].lifecycle != CurrentMember)
    || exists m :: m in e.members && m.domain !in admissions
  }

  /** Something about the site is not known. */
  ghost predicate Unsettled(admissions: Admissions, e: SiteExpectation, site: ComposedSite) {
    || site.capacity.status == Status.CapacityUnknown
    || site.forest.status == Status.FailureDomainDanglingParent || site.forest.status == Status.NoAuthoritativeSource
    || site.forest.cyclic != {}
    || site.connectivity.status == Status.ConnectivityUnknown
    || (exists k :: k in site.obligations && site.obligations[k].status == Status.ObligationIndeterminate)
    || SomebodyDoesNotCount(admissions, e)
    || exists k :: k in site.maintenance && site.maintenance[k].status == Status.MaintenanceUnknown
  }

  /** Something is known to be wrong. */
  ghost predicate Impaired(site: ComposedSite) {
    || (exists k :: k in site.obligations && site.obligations[k].status == Status.ObligationViolated)
    || site.connectivity.links.down != 0 || site.connectivity.gateways.down != 0
    || site.connectivity.links.degraded != 0 || site.connectivity.gateways.degraded != 0
  }

  /** Nobody expected is missing, and the evidence of everybody admitted is in term. */
  ghost predicate EverybodyInTerm(admissions: Admissions, e: SiteExpectation, now: int) {
    && (forall m | m in e.members :: m.domain in admissions)
    && forall d | d in admissions :: InTermAt(admissions[d], now)
  }

  predicate InTermAt(a: Admission, now: int) {
    a.record.declaration.Some? && InTerm(a.record.declaration.value.evidence, now)
  }

  /** What each lifecycle of a site stands for: a conflict comes before absence, absence
      before incompleteness, that before anything unknown, and that before anything
      wrong. */
  ghost predicate LifecycleStands(admissions: Admissions, e: SiteExpectation, site: ComposedSite) {
    var absent, complete := NobodyRequiredReported(admissions, e), EveryRequiredCurrent(admissions, e);
    var unknown := Unsettled(admissions, e, site);
    && (site.lifecycle == ConflictingSite <==> site.conflicts != [])
    && (site.lifecycle == PartitionedSite <==> site.conflicts == [] && absent)
    && (site.lifecycle == IncompleteSite <==> site.conflicts == [] && !absent && !complete)
    && (site.lifecycle == IndeterminateSite <==> site.conflicts == [] && !absent && complete && unknown)
    && (site.lifecycle == DegradedSite <==> site.conflicts == [] && !absent && complete && !unknown && Impaired(site))
    && (site.lifecycle == CurrentSite <==> site.conflicts == [] && !absent && complete && !unknown && !Impaired(site))
  }

  /** The status says the same as the lifecycle. */
  predicate StatusSays(site: ComposedSite) {
    && (site.lifecycle == ConflictingSite <==> site.status == Status.Conflicting)
    && (site.lifecycle == PartitionedSite <==> site.status == Status.Partitioned)
    && (site.lifecycle == IncompleteSite <==> site.status == Status.Incomplete)
    && (site.lifecycle == IndeterminateSite <==> site.status == Status.Indeterminate)
    && (site.lifecycle == DegradedSite <==> site.status == Status.Degraded)
    && (site.lifecycle == CurrentSite <==> site.status == Status.Current)
  }

  /** Over every readable input: which lifecycle the site has, and what its flags say. */
  lemma SiteLifecycleIff(env: Env, input: CompositionInput)
    requires Readable(env, input) && ComposeSite(env, input).Success?
    ensures var site, e := ComposeSite(env, input).value, Prepared(input).value;
            var admissions := AdmissionsFor(env, input, e);
            && LifecycleStands(admissions, e, site) && StatusSays(site)
            && (site.membershipComplete <==> EveryRequiredCurrent(admissions, e))
            && (site.anyConflict <==> site.conflicts != [])
            && (site.anyUnknownCapacity <==> site.capacity.status == Status.CapacityUnknown)
            && (site.allEvidenceFresh <==> EverybodyInTerm(admissions, e, input.now))
  {
    hide *;
    var e := PreparedFor(env, input);
    var admissions := AdmissionsFor(env, input, e);
    var site := SiteFrom(env, input, e, admissions);
    FlagsAre(env, input, e, admissions);
    NobodyAdmittedIsAbsent(env, input, e);
    EvidenceIs(env, input, e);
    FreshIff(admissions, e, input.now);
    MembershipIs(admissions, e);
    FindingsDecide(admissions, e, site);
  }

  lemma FlagsAre(env: Env, input: CompositionInput, e: SiteExpectation, admissions: Admissions)
    requires LinksAreClaimed(ResourcesOf(env, admissions))
    ensures var site := SiteFrom(env, input, e, admissions);
            && site.members == MembersOf(admissions, e)
            && site.membershipComplete == MembershipComplete(site.members, e)
            && site.allEvidenceFresh == AllFresh(site.members)
            && site.anyConflict == (site.conflicts != [])
            && site.anyUnknownCapacity == (site.capacity.status == Status.CapacityUnknown)
            && site.lifecycle == LifecycleOf(FindingsOf(site.members, e, site.conflicts, site.capacity.status, site.forest,
                 site.connectivity, site.obligations, SomeZoneUnknown(site.maintenance)))
            && site.status == SiteStatus(site.lifecycle)
  {
    hide ResourcesOf, ForestOf, EffectsOf, SiteLedger, ConnectivityOf, ObligationsOf, MembersOf, ConflictsOf,
      MembershipComplete, OwnershipOf, DeficitsOf, AllFresh, WithLifecycle, BodyDecisions, LinksAreClaimed,
      FindingsOf, LifecycleOf, SiteStatus, SomeZoneUnknown;
  }

  ghost predicate NobodyAbsent(admissions: Admissions) {
    forall d | d in admissions :: admissions[d].lifecycle != AbsentMember
  }

  lemma NobodyAdmittedIsAbsent(env: Env, input: CompositionInput, e: SiteExpectation)
    ensures NobodyAbsent(AdmissionsFor(env, input, e))
  {
    hide Best, EvidenceOf, Find;
    var best := Best(input.publications);
    forall d | d in best ensures Admit(env, input, e, best[d]).lifecycle != AbsentMember {}
  }

  lemma MembershipIs(admissions: Admissions, e: SiteExpectation)
    requires NobodyAbsent(admissions)
    ensures var members := MembersOf(admissions, e);
            && (AllRequiredAbsent(members, e) <==> NobodyRequiredReported(admissions, e))
            && (MembershipComplete(members, e) <==> EveryRequiredCurrent(admissions, e))
            && (AnyNonAuthoritative(members) <==> SomebodyDoesNotCount(admissions, e))
  {
    var members := MembersOf(admissions, e);
    hide MembersOf;
    MembersStand(admissions, e);
    AbsentIff(admissions, e, members);
    CompleteIff(admissions, e, members);
    CountsIff(admissions, e, members);
  }

  /** A listed member stands as it was admitted, or is absent. */
  ghost predicate Stand(admissions: Admissions, e: SiteExpectation, members: Members) {
    && (forall d | d in admissions :: d in members && members[d].lifecycle == admissions[d].lifecycle)
    && (forall d | d in members && d !in admissions ::
          members[d].lifecycle == AbsentMember && exists m :: m in e.members && m.domain == d)
    && forall m | m in e.members :: m.domain in members
  }

  lemma MembersStand(admissions: Admissions, e: SiteExpectation)
    ensures Stand(admissions, e, MembersOf(admissions, e))
  {
    hide Find;
    var members := MembersOf(admissions, e);
    forall m | m in e.members ensures m.domain in members { assert m.domain in ExpectedDomains(e.members); }
  }

  ghost predicate EvidenceTold(admissions: Admissions, now: int) {
    forall d | d in admissions :: admissions[d].evidence == EvidenceOf(admissions[d].record, now)
  }

  lemma EvidenceIs(env: Env, input: CompositionInput, e: SiteExpectation)
    ensures EvidenceTold(AdmissionsFor(env, input, e), input.now)
  {
    hide Best, Admit, EvidenceOf;
  }

  lemma FreshIff(admissions: Admissions, e: SiteExpectation, now: int)
    requires EvidenceTold(admissions, now)
    ensures AllFresh(MembersOf(admissions, e)) <==> EverybodyInTerm(admissions, e, now)
  {
    hide MembersOf, InTermAt;
    var members := MembersOf(admissions, e);
    MembersStand(admissions, e);
    forall d | d in admissions ensures members[d].evidence == Fresh <==> InTermAt(admissions[d], now) {
      assert members[d] == AdmittedState(admissions[d]);
      TermIff(admissions[d], now);
    }
    forall d | d in members && d !in admissions ensures members[d].evidence != Fresh {}
    if AllFresh(members) {
      forall m | m in e.members ensures m.domain in admissions { assert m.domain in members; }
    }
  }

  lemma TermIff(a: Admission, now: int)
    ensures EvidenceOf(a.record, now) == Fresh <==> InTermAt(a, now)
  {
    if a.record.declaration.Some? { EvidenceStateIff(a.record.declaration.value.evidence, now); }
  }

  lemma AbsentIff(admissions: Admissions, e: SiteExpectation, members: Members)
    requires Stand(admissions, e, members) && NobodyAbsent(admissions)
    ensures AllRequiredAbsent(members, e) <==> NobodyRequiredReported(admissions, e)
  {
    if AllRequiredAbsent(members, e) {
      forall m | m in e.members && m.required ensures m.domain !in admissions {
        var i :| 0 <= i < |e.members| && e.members[i] == m;
      }
    }
    if NobodyRequiredReported(admissions, e) {
      forall i | 0 <= i < |e.members| && e.members[i].required ensures e.members[i].domain !in admissions {
        assert e.members[i] in e.members;
      }
    }
  }

  lemma CompleteIff(admissions: Admissions, e: SiteExpectation, members: Members)
    requires Stand(admissions, e, members) && NobodyAbsent(admissions)
    ensures MembershipComplete(members, e) <==> EveryRequiredCurrent(admissions, e)
  {
    if MembershipComplete(members, e) {
      forall m | m in e.members && m.required
        ensures m.domain in admissions && admissions[m.domain].lifecycle == CurrentMember
      {
        var i :| 0 <= i < |e.members| && e.members[i] == m;
        assert Present(members, m.domain);
      }
    }
    if EveryRequiredCurrent(admissions, e) {
      forall i | 0 <= i < |e.members| && e.members[i].required ensures Present(members, e.members[i].domain) {
        assert e.members[i] in e.members;
      }
    }
  }

  lemma CountsIff(admissions: Admissions, e: SiteExpectation, members: Members)
    requires Stand(admissions, e, members) && NobodyAbsent(admissions)
    ensures AnyNonAuthoritative(members) <==> SomebodyDoesNotCount(admissions, e)
  {
    if d :| d in admissions && admissions[d].lifecycle != CurrentMember { assert d in members; }
    if m :| m in e.members && m.domain !in admissions { assert m.domain in members; }
    if d :| d in members && members[d].lifecycle != CurrentMember { assert d in admissions || d !in admissions; }
  }

  lemma FindingsDecide(admissions: Admissions, e: SiteExpectation, site: ComposedSite)
    requires site.members == MembersOf(admissions, e) && NobodyAbsent(admissions)
    requires site.lifecycle == LifecycleOf(FindingsOf(site.members, e, site.conflicts, site.capacity.status, site.forest,
      site.connectivity, site.obligations, SomeZoneUnknown(site.maintenance)))
    requires site.status == SiteStatus(site.lifecycle)
    ensures LifecycleStands(admissions, e, site) && StatusSays(site)
  {
    hide *;
    MembershipIs(admissions, e);
    FindingsAre(admissions, e, site);
    ByPrecedence(admissions, e, site, FindingsOf(site.members, e, site.conflicts, site.capacity.status, site.forest,
      site.connectivity, site.obligations, SomeZoneUnknown(site.maintenance)));
    SaidAlike(site);
  }

  lemma FindingsAre(admissions: Admissions, e: SiteExpectation, site: ComposedSite)
    requires AnyNonAuthoritative(site.members) <==> SomebodyDoesNotCount(admissions, e)
    ensures var f := FindingsOf(site.members, e, site.conflicts, site.capacity.status, site.forest, site.connectivity,
              site.obligations, SomeZoneUnknown(site.maintenance));
            && (f.conflict <==> site.conflicts != []) && (f.indeterminate <==> Unsettled(admissions, e, site))
            && (f.degraded <==> Impaired(site))
            && (f.allRequiredAbsent <==> AllRequiredAbsent(site.members, e))
            && (f.anyRequiredMissing <==> !MembershipComplete(site.members, e))
  {
    hide AllRequiredAbsent, MembershipComplete, AnyNonAuthoritative, SomebodyDoesNotCount;
  }

  lemma ByPrecedence(admissions: Admissions, e: SiteExpectation, site: ComposedSite, f: Findings)
    requires (f.conflict <==> site.conflicts != []) && (f.indeterminate <==> Unsettled(admissions, e, site))
    requires (f.degraded <==> Impaired(site)) && (f.allRequiredAbsent <==> NobodyRequiredReported(admissions, e))
    requires f.anyRequiredMissing <==> !EveryRequiredCurrent(admissions, e)
    requires site.lifecycle == LifecycleOf(f)
    ensures LifecycleStands(admissions, e, site)
  {
    hide NobodyRequiredReported, EveryRequiredCurrent, Unsettled, Impaired;
  }

  lemma SaidAlike(site: ComposedSite)
    requires site.status == SiteStatus(site.lifecycle)
    ensures StatusSays(site)
  {
  }
}
