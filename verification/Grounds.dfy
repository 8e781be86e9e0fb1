/** What every decision of a site rests on, and so what a changed source invalidates. */
module Grounds {
  import opened Model
  import opened Admission
  import opened Attribution
  import opened FailureDomains
  import opened Ledger
  import opened Maintenance
  import opened Verdicts
  import opened Membership
  import opened Decisions
  import opened Compose
  import opened SourceBounds

  // ----- The grounds ----------------------------------------------------------

  const NOBODYS_SOURCE := SourceRef(MemberDomainKey(UnknownDomain, []), 0, ZERO_DIGEST)

  /** The source attests the resource of the site. */
  predicate Attests(site: ComposedSite, k: ResourceKey, x: SourceRef) {
    k in site.ownership && x in site.ownership[k].attestors
  }

  /** The source is the record the domain was admitted on. */
  predicate SubmittedBy(admissions: Admissions, d: MemberDomainKey, x: SourceRef) {
    d in admissions && x == SourceRef(admissions[d].record.domain, admissions[d].record.generation, admissions[d].record.digest)
  }

  ghost predicate Submitted(admissions: Admissions, x: SourceRef) {
    exists d :: SubmittedBy(admissions, d, x)
  }

  ghost predicate AttestsRack(site: ComposedSite, x: SourceRef) {
    exists k :: Attests(site, k, x) && k.kind == RackKind
  }

  ghost predicate AttestsDomain(site: ComposedSite, x: SourceRef) {
    exists k :: Attests(site, k, x) && k.kind == FailureDomainKind
  }

  ghost predicate AttestsLink(site: ComposedSite, x: SourceRef) {
    exists k :: Attests(site, k, x) && (k.kind == SharedLinkKind || k.kind == GatewayKind)
  }

  ghost predicate AttestsPool(site: ComposedSite, x: SourceRef) {
    exists k :: Attests(site, k, x) && k.kind == CapacityPoolKind
  }

  /** The source attests something that is counted in the total. */
  ghost predicate AttestsCounted(site: ComposedSite, x: SourceRef) {
    exists i :: 0 <= i < |site.capacity.entries| && site.capacity.entries[i].countedInTotal
      && Attests(site, site.capacity.entries[i].owner, x)
  }

  /** The source attests the zone, or something the zone excludes. */
  ghost predicate AttestsZone(site: ComposedSite, z: ResourceKey, x: SourceRef) {
    z in site.maintenance && (Attests(site, z, x) || exists k :: k in site.maintenance[z].excluded && Attests(site, k, x))
  }

  /** A decision rests on the source. */
  ghost predicate RestsOn(admissions: Admissions, site: ComposedSite, id: DecisionId, x: SourceRef) {
    match id.kind
    case MembershipCompleteness => Submitted(admissions, x)
    case SiteEpoch => Submitted(admissions, x)
    case OwnershipMap => Attests(site, id.subject, x)
    case RackTopology => AttestsRack(site, x)
    case FailureDomainForestDecision => AttestsDomain(site, x)
    case ConnectivityDecision => AttestsLink(site, x)
    case SharedResourceAccounting => AttestsLink(site, x) || AttestsPool(site, x)
    case CapacityTotal => AttestsCounted(site, x)
    case CapacityAvailable => AttestsCounted(site, x)
    case MaintenanceExclusion => AttestsZone(site, id.subject, x)
    case ObligationDecision => id.subject in site.obligations && Attests(site, id.subject, x)
    case SiteLifecycleDecision => Submitted(admissions, x)
  }

  /** What a decision says. */
  predicate Says(site: ComposedSite, id: DecisionId, status: Status) {
    match id.kind
    case MembershipCompleteness => status == if site.membershipComplete then Status.Ok else Status.Incomplete
    case SiteEpoch => status == Status.Ok
    case OwnershipMap => id.subject in site.ownership && status == site.ownership[id.subject].status
    case RackTopology => status == Status.Ok
    case FailureDomainForestDecision => status == site.forest.status
    case ConnectivityDecision => status == site.connectivity.status
    case SharedResourceAccounting => status == Status.Ok
    case CapacityTotal => status == site.capacity.status
    case CapacityAvailable => status == site.capacity.status
    case MaintenanceExclusion => id.subject in site.maintenance && status == site.maintenance[id.subject].status
    case ObligationDecision => id.subject in site.obligations && status == site.obligations[id.subject].status
    case SiteLifecycleDecision => status == site.status
  }

  /** The decision is made for this site. */
  predicate IsDecided(site: ComposedSite, id: DecisionId) {
    match id.kind
    case OwnershipMap => id.subject in site.ownership
    case MaintenanceExclusion => id.subject in site.maintenance
    case ObligationDecision => id.subject in site.obligations
    case _ => id.subject == NO_SUBJECT
  }

  ghost predicate Grounded(admissions: Admissions, site: ComposedSite, d: Decision) {
    && (forall x :: x in d.sources <==> RestsOn(admissions, site, d.id, x))
    && Says(site, d.id, d.status) && IsDecided(site, d.id)
  }

  ghost predicate AllGrounded(admissions: Admissions, site: ComposedSite, decisions: seq<Decision>) {
    forall d | d in decisions :: Grounded(admissions, site, d)
  }

  // ----- The sets they are gathered from ---------------------------------------

  lemma {:induction false} KindSourcesAt(resources: Resources, order: seq<ResourceKey>, kinds: set<ResourceKind>, x: SourceRef)
    requires forall k | k in order :: k in resources
    ensures x in KindSources(resources, order, kinds) <==>
      exists k :: k in order && k.kind in kinds && x in Attestors(resources[k])
  {
    hide Attestors;
    if order != [] {
      var front, k := order[..|order| - 1], order[|order| - 1];
      assert order == front + [k];
      KindSourcesAt(resources, front, kinds, x);
      assert k in order;
    }
  }

  lemma {:induction false} AttestorsOfAt(resources: Resources, order: seq<ResourceKey>, x: SourceRef)
    ensures x in AttestorsOf(resources, order) <==> exists k :: k in order && k in resources && x in Attestors(resources[k])
  {
    hide Attestors;
    if order != [] {
      var front, k := order[..|order| - 1], order[|order| - 1];
      assert order == front + [k];
      AttestorsOfAt(resources, front, x);
      assert k in order;
    }
  }

  lemma {:induction false} CapacitySourcesAt(entries: seq<LedgerEntry>, x: SourceRef)
    ensures x in CapacitySources(entries) <==>
      exists i :: 0 <= i < |entries| && entries[i].countedInTotal && x in entries[i].attestors
  {
    if entries != [] {
      var n := |entries| - 1;
      CapacitySourcesAt(entries[..n], x);
      assert entries == entries[..n] + [entries[n]];
    }
  }

  /** The site shows the resources it was made from. */
  ghost predicate Shows(site: ComposedSite, resources: Resources) { site.ownership == OwnershipOf(resources) }

  lemma AttestsIff(site: ComposedSite, resources: Resources, k: ResourceKey, x: SourceRef)
    requires Shows(site, resources)
    ensures Attests(site, k, x) <==> k in resources && x in Attestors(resources[k])
    ensures k in site.ownership <==> k in resources
    ensures k in resources ==> site.ownership[k].status == resources[k].status
  {
    hide Attestors;
  }

  lemma KindIff(site: ComposedSite, resources: Resources, kinds: set<ResourceKind>, x: SourceRef)
    requires Shows(site, resources)
    ensures x in KindSources(resources, KeyOrder(resources.Keys), kinds) <==> exists k :: Attests(site, k, x) && k.kind in kinds
  {
    hide KindSources, Attestors, Attests, Shows;
    var order := KeyOrder(resources.Keys);
    KindSourcesAt(resources, order, kinds, x);
    forall k ensures Attests(site, k, x) <==> k in resources && x in Attestors(resources[k]) { AttestsIff(site, resources, k, x); }
  }

  lemma RacksAndDomains(site: ComposedSite, resources: Resources, x: SourceRef)
    requires Shows(site, resources)
    ensures x in KindSources(resources, KeyOrder(resources.Keys), RACKS) <==> AttestsRack(site, x)
    ensures x in KindSources(resources, KeyOrder(resources.Keys), FORESTS) <==> AttestsDomain(site, x)
  {
    hide KindSources, Attests, Shows;
    KindIff(site, resources, RACKS, x);
    KindIff(site, resources, FORESTS, x);
  }

  lemma LinksAndPools(site: ComposedSite, resources: Resources, x: SourceRef)
    requires Shows(site, resources)
    ensures x in KindSources(resources, KeyOrder(resources.Keys), LINKS) <==> AttestsLink(site, x)
    ensures x in KindSources(resources, KeyOrder(resources.Keys), ACCOUNTED) <==> AttestsLink(site, x) || AttestsPool(site, x)
  {
    hide KindSources, Attests, Shows;
    KindIff(site, resources, LINKS, x);
    KindIff(site, resources, ACCOUNTED, x);
  }

  /** An entry of the ledger is attested by whoever attests its owner. */
  ghost predicate EntriesAttested(site: ComposedSite) {
    forall i | 0 <= i < |site.capacity.entries| ::
      var e := site.capacity.entries[i]; e.owner in site.ownership && e.attestors == site.ownership[e.owner].attestors
  }

  ghost predicate BuildsAttested(builds: seq<LedgerBuild>, resources: Resources) {
    forall i | 0 <= i < |builds| :: builds[i].owner in resources && builds[i].attestors == Attestors(resources[builds[i].owner])
  }

  lemma BuildsAreAttested(resources: Resources, order: seq<ResourceKey>)
    requires forall k | k in order :: k in resources
    ensures BuildsAttested(BuildsOf(resources, order), resources)
  {
    hide BuildsOf, ContributionOf, Attestors;
    var builds := BuildsOf(resources, order);
    forall i | 0 <= i < |builds|
      ensures builds[i].owner in resources && builds[i].attestors == Attestors(resources[builds[i].owner])
    {
      BuildsAt(resources, order, builds[i]);
    }
  }

  lemma EntriesAre(site: ComposedSite, resources: Resources, effects: Effects)
    requires Shows(site, resources) && site.capacity == SiteLedger(resources, effects)
    ensures EntriesAttested(site)
  {
    hide *;
    var builds := BuildsOf(resources, KeyOrder(resources.Keys));
    BuildsAreAttested(resources, KeyOrder(resources.Keys));
    CapacityIsLedger(resources, effects);
    LedgerEntries(builds, Excluded(effects));
    EntriesAt(builds, Excluded(effects));
    EntriesFrom(site, resources, builds, Excluded(effects));
  }

  lemma EntriesFrom(site: ComposedSite, resources: Resources, builds: seq<LedgerBuild>, excluded: set<ResourceKey>)
    requires Shows(site, resources) && BuildsAttested(builds, resources) && |site.capacity.entries| == |builds|
    requires forall i | 0 <= i < |builds| :: site.capacity.entries[i] == EntryOf(builds[i], excluded)
    ensures EntriesAttested(site)
  {
    hide Attestors;
  }

  lemma CountedIff(site: ComposedSite, x: SourceRef)
    requires EntriesAttested(site)
    ensures x in CapacitySources(site.capacity.entries) <==> AttestsCounted(site, x)
  {
    hide CapacitySources;
    CapacitySourcesAt(site.capacity.entries, x);
  }

  lemma ZoneIff(site: ComposedSite, resources: Resources, z: ResourceKey, x: SourceRef)
    requires Shows(site, resources) && z in site.maintenance
    ensures x in ZoneSources(resources, z, site.maintenance[z]) <==> AttestsZone(site, z, x)
  {
    hide AttestorsOf, Attestors, Attests, Shows;
    AttestorsOfAt(resources, [z], x);
    AttestorsOfAt(resources, KeyOrder(site.maintenance[z].excluded), x);
    forall k ensures Attests(site, k, x) <==> k in resources && x in Attestors(resources[k]) { AttestsIff(site, resources, k, x); }
  }

  lemma SubmittedIff(admissions: Admissions, x: SourceRef)
    ensures x in AdmittedSources(admissions) <==> Submitted(admissions, x)
  {
    if d :| d in admissions && admissions[d].record.Source() == x { assert SubmittedBy(admissions, d, x); }
  }

  // ----- One decision after another --------------------------------------------

  lemma DecideGrounded(admissions: Admissions, site: ComposedSite, before: seq<Decision>, kind: DecisionKind,
      subject: ResourceKey, status: Status, sources: set<SourceRef>)
    requires AllGrounded(admissions, site, before)
    requires Grounded(admissions, site, Decision(DecisionId(kind, subject), status, sources))
    ensures AllGrounded(admissions, site, Decide(before, kind, subject, status, sources))
  {
    hide Decide, Grounded;
  }

  lemma OpeningGrounded(admissions: Admissions, site: ComposedSite)
    ensures AllGrounded(admissions, site, OpeningDecisions(admissions, site.membershipComplete))
  {
    hide AdmittedSources, Submitted, AllGrounded;
    var sources, status := AdmittedSources(admissions), if site.membershipComplete then Status.Ok else Status.Incomplete;
    forall x ensures x in sources <==> Submitted(admissions, x) { SubmittedIff(admissions, x); }
    NothingGrounded(admissions, site);
    DecideGrounded(admissions, site, [], MembershipCompleteness, NO_SUBJECT, status, sources);
    var one := Decide([], MembershipCompleteness, NO_SUBJECT, status, sources);
    DecideGrounded(admissions, site, one, SiteEpoch, NO_SUBJECT, Status.Ok, sources);
  }

  lemma NothingGrounded(admissions: Admissions, site: ComposedSite)
    ensures AllGrounded(admissions, site, [])
  {
  }

  lemma {:induction false} OwnershipGrounded(admissions: Admissions, site: ComposedSite, before: seq<Decision>,
      resources: Resources, order: seq<ResourceKey>)
    requires Shows(site, resources) && AllGrounded(admissions, site, before) && forall k | k in order :: k in resources
    ensures AllGrounded(admissions, site, OwnershipDecisions(before, resources, order))
  {
    hide AllGrounded, Attestors, Shows, Decide, Attests;
    if order != [] {
      var front, k := order[..|order| - 1], order[|order| - 1];
      assert order == front + [k];
      OwnershipGrounded(admissions, site, before, resources, front);
      forall x ensures Attests(site, k, x) <==> x in Attestors(resources[k]) { AttestsIff(site, resources, k, x); }
      AttestsIff(site, resources, k, NOBODYS_SOURCE);
      DecideGrounded(admissions, site, OwnershipDecisions(before, resources, front), OwnershipMap, k, resources[k].status,
        Attestors(resources[k]));
    }
  }

  lemma GatheredIff(site: ComposedSite, resources: Resources)
    requires Shows(site, resources) && EntriesAttested(site)
    ensures var order := KeyOrder(resources.Keys);
            && (forall x :: x in KindSources(resources, order, RACKS) <==> AttestsRack(site, x))
            && (forall x :: x in KindSources(resources, order, FORESTS) <==> AttestsDomain(site, x))
            && (forall x :: x in KindSources(resources, order, LINKS) <==> AttestsLink(site, x))
            && (forall x :: x in KindSources(resources, order, ACCOUNTED) <==> AttestsLink(site, x) || AttestsPool(site, x))
            && (forall x :: x in CapacitySources(site.capacity.entries) <==> AttestsCounted(site, x))
  {
    hide *;
    var order := KeyOrder(resources.Keys);
    forall x
      ensures x in KindSources(resources, order, RACKS) <==> AttestsRack(site, x)
      ensures x in KindSources(resources, order, FORESTS) <==> AttestsDomain(site, x)
      ensures x in KindSources(resources, order, LINKS) <==> AttestsLink(site, x)
      ensures x in KindSources(resources, order, ACCOUNTED) <==> AttestsLink(site, x) || AttestsPool(site, x)
      ensures x in CapacitySources(site.capacity.entries) <==> AttestsCounted(site, x)
    {
      RacksAndDomains(site, resources, x);
      LinksAndPools(site, resources, x);
      CountedIff(site, x);
    }
  }

  lemma RackGrounded(admissions: Admissions, site: ComposedSite, sources: set<SourceRef>)
    requires forall x :: x in sources <==> AttestsRack(site, x)
    ensures Grounded(admissions, site, Decision(DecisionId(RackTopology, NO_SUBJECT), Status.Ok, sources))
  {
    hide AttestsRack;
  }

  lemma ForestGrounded(admissions: Admissions, site: ComposedSite, sources: set<SourceRef>)
    requires forall x :: x in sources <==> AttestsDomain(site, x)
    ensures Grounded(admissions, site, Decision(DecisionId(FailureDomainForestDecision, NO_SUBJECT), site.forest.status, sources))
  {
    hide AttestsDomain;
  }

  lemma ConnectivityGrounded(admissions: Admissions, site: ComposedSite, sources: set<SourceRef>)
    requires forall x :: x in sources <==> AttestsLink(site, x)
    ensures Grounded(admissions, site, Decision(DecisionId(ConnectivityDecision, NO_SUBJECT), site.connectivity.status, sources))
  {
    hide AttestsLink;
  }

  lemma AccountingGrounded(admissions: Admissions, site: ComposedSite, sources: set<SourceRef>)
    requires forall x :: x in sources <==> AttestsLink(site, x) || AttestsPool(site, x)
    ensures Grounded(admissions, site, Decision(DecisionId(SharedResourceAccounting, NO_SUBJECT), Status.Ok, sources))
  {
    hide AttestsLink, AttestsPool;
  }

  lemma CapacityGrounded(admissions: Admissions, site: ComposedSite, sources: set<SourceRef>)
    requires forall x :: x in sources <==> AttestsCounted(site, x)
    ensures Grounded(admissions, site, Decision(DecisionId(CapacityTotal, NO_SUBJECT), site.capacity.status, sources))
    ensures Grounded(admissions, site, Decision(DecisionId(CapacityAvailable, NO_SUBJECT), site.capacity.status, sources))
  {
    hide AttestsCounted;
  }

  lemma SummaryGrounded(admissions: Admissions, site: ComposedSite, before: seq<Decision>, resources: Resources)
    requires Shows(site, resources) && EntriesAttested(site) && AllGrounded(admissions, site, before)
    ensures AllGrounded(admissions, site, SummaryDecisions(before, resources, site.capacity, site.forest, site.connectivity))
  {
    var order := KeyOrder(resources.Keys);
    var racks, forests := KindSources(resources, order, RACKS), KindSources(resources, order, FORESTS);
    var links, accounted := KindSources(resources, order, LINKS), KindSources(resources, order, ACCOUNTED);
    var counted := CapacitySources(site.capacity.entries);
    GatheredIff(site, resources);
    hide AllGrounded, KindSources, CapacitySources, Shows, Decide, EntriesAttested, AttestsRack, AttestsDomain, AttestsLink,
      AttestsPool, AttestsCounted, Grounded, RestsOn, Says, IsDecided, KeyOrder;
    RackGrounded(admissions, site, racks);
    ForestGrounded(admissions, site, forests);
    ConnectivityGrounded(admissions, site, links);
    AccountingGrounded(admissions, site, accounted);
    CapacityGrounded(admissions, site, counted);
    DecideGrounded(admissions, site, before, RackTopology, NO_SUBJECT, Status.Ok, racks);
    var d1 := Decide(before, RackTopology, NO_SUBJECT, Status.Ok, racks);
    DecideGrounded(admissions, site, d1, FailureDomainForestDecision, NO_SUBJECT, site.forest.status, forests);
    var d2 := Decide(d1, FailureDomainForestDecision, NO_SUBJECT, site.forest.status, forests);
    DecideGrounded(admissions, site, d2, ConnectivityDecision, NO_SUBJECT, site.connectivity.status, links);
    var d3 := Decide(d2, ConnectivityDecision, NO_SUBJECT, site.connectivity.status, links);
    DecideGrounded(admissions, site, d3, SharedResourceAccounting, NO_SUBJECT, Status.Ok, accounted);
    var d4 := Decide(d3, SharedResourceAccounting, NO_SUBJECT, Status.Ok, accounted);
    DecideGrounded(admissions, site, d4, CapacityTotal, NO_SUBJECT, site.capacity.status, counted);
    var d5 := Decide(d4, CapacityTotal, NO_SUBJECT, site.capacity.status, counted);
    DecideGrounded(admissions, site, d5, CapacityAvailable, NO_SUBJECT, site.capacity.status, counted);
  }

  lemma {:induction false} ZonesGrounded(admissions: Admissions, site: ComposedSite, before: seq<Decision>,
      resources: Resources, order: seq<ResourceKey>)
    requires Shows(site, resources) && AllGrounded(admissions, site, before) && forall k | k in order :: k in site.maintenance
    ensures AllGrounded(admissions, site, ZoneDecisions(before, resources, site.maintenance, order))
  {
    hide AllGrounded, Shows, Decide, ZoneSources, AttestsZone;
    if order != [] {
      var front, k := order[..|order| - 1], order[|order| - 1];
      assert order == front + [k];
      ZonesGrounded(admissions, site, before, resources, front);
      var sources := ZoneSources(resources, k, site.maintenance[k]);
      forall x ensures x in sources <==> AttestsZone(site, k, x) { ZoneIff(site, resources, k, x); }
      DecideGrounded(admissions, site, ZoneDecisions(before, resources, site.maintenance, front), MaintenanceExclusion, k,
        site.maintenance[k].status, sources);
    }
  }

  /** An obligation is judged for whoever attests it. */
  ghost predicate JudgedForAttestors(site: ComposedSite) {
    forall k | k in site.obligations :: k in site.ownership && site.obligations[k].sources == site.ownership[k].attestors
  }

  lemma {:induction false} ObligationsGrounded(admissions: Admissions, site: ComposedSite, before: seq<Decision>,
      order: seq<ResourceKey>)
    requires JudgedForAttestors(site) && AllGrounded(admissions, site, before) && forall k | k in order :: k in site.obligations
    ensures AllGrounded(admissions, site, ObligationDecisions(before, site.obligations, order))
  {
    hide AllGrounded, Decide;
    if order != [] {
      var front, k := order[..|order| - 1], order[|order| - 1];
      assert order == front + [k];
      ObligationsGrounded(admissions, site, before, front);
      DecideGrounded(admissions, site, ObligationDecisions(before, site.obligations, front), ObligationDecision, k,
        site.obligations[k].status, site.obligations[k].sources);
    }
  }

  lemma JudgedFor(site: ComposedSite, resources: Resources, forest: SiteForest, available: CapacityVector)
    requires Shows(site, resources) && LinksAreClaimed(resources) && site.obligations == ObligationsOf(resources, forest, available)
    ensures JudgedForAttestors(site)
  {
    hide Attestors, Judgeable, Observe, ChannelOf, CountVerdict;
    forall k | k in site.obligations ensures site.obligations[k].sources == Attestors(resources[k]) {
      SourcesOfVerdict(resources, forest, available, k);
    }
  }

  lemma SourcesOfVerdict(resources: Resources, forest: SiteForest, available: CapacityVector, k: ResourceKey)
    requires LinksAreClaimed(resources) && k in ObligationsOf(resources, forest, available)
    ensures ObligationsOf(resources, forest, available)[k].sources == Attestors(resources[k])
  {
    hide Attestors, Judgeable, Observe, ChannelOf;
    JudgeableAt(resources, k);
  }

  // ----- The whole of a site ----------------------------------------------------

  /** The body of the decisions is grounded. */
  lemma BodyGrounded(admissions: Admissions, site: ComposedSite, resources: Resources)
    requires Shows(site, resources) && EntriesAttested(site) && JudgedForAttestors(site)
    ensures AllGrounded(admissions, site, BodyDecisions(admissions, resources, site.capacity, site.forest, site.maintenance,
      site.connectivity, site.obligations, site.membershipComplete))
  {
    hide AllGrounded, Shows, EntriesAttested, JudgedForAttestors, OpeningDecisions, OwnershipDecisions, SummaryDecisions,
      ZoneDecisions, ObligationDecisions;
    var d0 := OpeningDecisions(admissions, site.membershipComplete);
    OpeningGrounded(admissions, site);
    OwnershipGrounded(admissions, site, d0, resources, KeyOrder(resources.Keys));
    var d1 := OwnershipDecisions(d0, resources, KeyOrder(resources.Keys));
    SummaryGrounded(admissions, site, d1, resources);
    var d2 := SummaryDecisions(d1, resources, site.capacity, site.forest, site.connectivity);
    ZonesGrounded(admissions, site, d2, resources, KeyOrder(site.maintenance.Keys));
    var d3 := ZoneDecisions(d2, resources, site.maintenance, KeyOrder(site.maintenance.Keys));
    ObligationsGrounded(admissions, site, d3, KeyOrder(site.obligations.Keys));
  }

  /** Everybody who attests anything was admitted. */
  ghost predicate AttestorsSubmitted(admissions: Admissions, site: ComposedSite) {
    forall k, x | Attests(site, k, x) :: Submitted(admissions, x)
  }

  lemma {:induction false} LifecycleSources(admissions: Admissions, site: ComposedSite, body: seq<Decision>, x: SourceRef)
    requires AllGrounded(admissions, site, body) && AttestorsSubmitted(admissions, site)
    requires body != [] && body[0].id == DecisionId(MembershipCompleteness, NO_SUBJECT)
    ensures x in AllSources(body) <==> Submitted(admissions, x)
  {
    hide AllSources, Submitted, Attests;
    AllSourcesAt(body, x);
    assert body[0] in body && Grounded(admissions, site, body[0]);
    forall d | d in body && x in d.sources ensures Submitted(admissions, x) {
      assert Grounded(admissions, site, d);
      GroundsSubmitted(admissions, site, d.id, x);
    }
  }

  lemma GroundsSubmitted(admissions: Admissions, site: ComposedSite, id: DecisionId, x: SourceRef)
    requires AttestorsSubmitted(admissions, site) && RestsOn(admissions, site, id, x)
    ensures Submitted(admissions, x)
  {
    hide Submitted, Attests;
  }

  lemma AttestorsAreSubmitted(env: Env, admissions: Admissions, site: ComposedSite)
    requires Shows(site, ResourcesOf(env, admissions))
    ensures AttestorsSubmitted(admissions, site)
  {
    hide ResourcesOf, AdmittedSources, Submitted;
    AttestorsSpoke(env, admissions);
    forall k, x | Attests(site, k, x) ensures Submitted(admissions, x) {
      AttestsIff(site, ResourcesOf(env, admissions), k, x);
      SubmittedIff(admissions, x);
    }
  }

  /** Every decision of a composed site, whatever the site: the sources it has are exactly
      those it rests on, and it says what the site says. There are never more of them than
      the bound. */
  lemma EveryDecisionIsGrounded(env: Env, input: CompositionInput)
    requires Readable(env, input) && ComposeSite(env, input).Success?
    ensures var site := ComposeSite(env, input).value;
            AllGrounded(AdmissionsFor(env, input, Prepared(input).value), site, site.decisions)
            && |site.decisions| <= MAX_DECISIONS
  {
    hide *;
    var e := PreparedFor(env, input);
    var admissions := AdmissionsFor(env, input, e);
    var resources := ResourcesOf(env, admissions);
    var site := SiteFrom(env, input, e, admissions);
    SiteParts(env, input, e, admissions);
    ShowsIt(site, resources);
    EntriesAre(site, resources, site.maintenance);
    JudgedFor(site, resources, site.forest, site.capacity.available);
    BodyGrounded(admissions, site, resources);
    AttestorsAreSubmitted(env, admissions, site);
    var body := BodyDecisions(admissions, resources, site.capacity, site.forest, site.maintenance, site.connectivity,
      site.obligations, site.membershipComplete);
    BodyOpens(admissions, resources, site);
    LastGrounded(admissions, site, body);
  }

  lemma ShowsIt(site: ComposedSite, resources: Resources)
    requires site.ownership == OwnershipOf(resources)
    ensures Shows(site, resources)
  {
  }

  lemma BodyOpens(admissions: Admissions, resources: Resources, site: ComposedSite)
    ensures var body := BodyDecisions(admissions, resources, site.capacity, site.forest, site.maintenance,
              site.connectivity, site.obligations, site.membershipComplete);
            body != [] && body[0].id == DecisionId(MembershipCompleteness, NO_SUBJECT) && |body| <= MAX_DECISIONS
  {
    OpeningIsShort(admissions, site.membershipComplete);
    hide OpeningDecisions, OwnershipDecisions, SummaryDecisions, ZoneDecisions, ObligationDecisions;
    OpeningIsFirst(admissions, site.membershipComplete);
  }

  lemma OpeningIsShort(admissions: Admissions, complete: bool)
    ensures |OpeningDecisions(admissions, complete)| <= MAX_DECISIONS
  {
    hide Decide, AdmittedSources;
  }

  lemma LastGrounded(admissions: Admissions, site: ComposedSite, body: seq<Decision>)
    requires AllGrounded(admissions, site, body) && AttestorsSubmitted(admissions, site)
    requires body != [] && body[0].id == DecisionId(MembershipCompleteness, NO_SUBJECT)
    requires site.decisions == WithLifecycle(body, site.status)
    requires |body| <= MAX_DECISIONS
    ensures AllGrounded(admissions, site, site.decisions) && |site.decisions| <= MAX_DECISIONS
  {
    hide AllGrounded, AllSources, Decide, AttestorsSubmitted, Submitted;
    forall x ensures x in AllSources(body) <==> Submitted(admissions, x) { LifecycleSources(admissions, site, body, x); }
    DecideGrounded(admissions, site, body, SiteLifecycleDecision, NO_SUBJECT, site.status, AllSources(body));
  }

  // ----- All of them are made ---------------------------------------------------

  /** The decisions of the site are no more than are kept. */
  predicate Fits(site: ComposedSite) {
    9 + |site.ownership| + |site.maintenance| + |site.obligations| <= MAX_DECISIONS
  }

  ghost predicate Made(decisions: seq<Decision>, kind: DecisionKind, subject: ResourceKey) {
    exists d :: d in decisions && d.id == DecisionId(kind, subject)
  }

  lemma MadeStays(a: seq<Decision>, b: seq<Decision>, kind: DecisionKind, subject: ResourceKey)
    requires a <= b && Made(a, kind, subject)
    ensures Made(b, kind, subject)
  {
    var d :| d in a && d.id == DecisionId(kind, subject);
    var i :| 0 <= i < |a| && a[i] == d;
    assert b[i] == d;
  }

  /** Below the bound one decision more is made, and none is lost. */
  lemma OneMore(before: seq<Decision>, kind: DecisionKind, subject: ResourceKey, status: Status, sources: set<SourceRef>)
    requires |before| < MAX_DECISIONS
    ensures var r := Decide(before, kind, subject, status, sources);
            && |r| == |before| + 1 && Made(r, kind, subject)
            && forall k, s :: Made(before, k, s) ==> Made(r, k, s)
  {
    var r := Decide(before, kind, subject, status, sources);
    hide Decide, Made;
    assert r == before + [Decision(DecisionId(kind, subject), status, sources)] by { DecideAdds(before, kind, subject, status, sources); }
    MadeLast(before, Decision(DecisionId(kind, subject), status, sources));
    forall k, s | Made(before, k, s) ensures Made(r, k, s) { MadeStays(before, r, k, s); }
  }

  lemma DecideAdds(before: seq<Decision>, kind: DecisionKind, subject: ResourceKey, status: Status, sources: set<SourceRef>)
    requires |before| < MAX_DECISIONS
    ensures Decide(before, kind, subject, status, sources) == before + [Decision(DecisionId(kind, subject), status, sources)]
  {
  }

  lemma MadeLast(before: seq<Decision>, d: Decision)
    ensures Made(before + [d], d.id.kind, d.id.subject)
  {
    assert (before + [d])[|before|] == d;
  }

  lemma OpeningMade(admissions: Admissions, complete: bool)
    ensures var r := OpeningDecisions(admissions, complete);
            |r| == 2 && Made(r, MembershipCompleteness, NO_SUBJECT) && Made(r, SiteEpoch, NO_SUBJECT)
  {
    hide Decide, Made, AdmittedSources;
    var sources, status := AdmittedSources(admissions), if complete then Status.Ok else Status.Incomplete;
    OneMore([], MembershipCompleteness, NO_SUBJECT, status, sources);
    OneMore(Decide([], MembershipCompleteness, NO_SUBJECT, status, sources), SiteEpoch, NO_SUBJECT, Status.Ok, sources);
  }

  lemma {:induction false} OwnershipMade(before: seq<Decision>, resources: Resources, order: seq<ResourceKey>)
    requires (forall k | k in order :: k in resources) && |before| + |order| <= MAX_DECISIONS
    ensures var r := OwnershipDecisions(before, resources, order);
            |r| == |before| + |order| && forall k | k in order :: Made(r, OwnershipMap, k)
  {
    hide Decide, Made, Attestors;
    if order != [] {
      var front, k := order[..|order| - 1], order[|order| - 1];
      assert order == front + [k];
      OwnershipMade(before, resources, front);
      OneMore(OwnershipDecisions(before, resources, front), OwnershipMap, k, resources[k].status, Attestors(resources[k]));
    }
  }

  lemma {:induction false} ZonesMade(before: seq<Decision>, resources: Resources, effects: Effects, order: seq<ResourceKey>)
    requires (forall k | k in order :: k in effects) && |before| + |order| <= MAX_DECISIONS
    ensures var r := ZoneDecisions(before, resources, effects, order);
            |r| == |before| + |order| && forall k | k in order :: Made(r, MaintenanceExclusion, k)
  {
    hide Decide, Made, ZoneSources;
    if order != [] {
      var front, k := order[..|order| - 1], order[|order| - 1];
      assert order == front + [k];
      ZonesMade(before, resources, effects, front);
      OneMore(ZoneDecisions(before, resources, effects, front), MaintenanceExclusion, k, effects[k].status,
        ZoneSources(resources, k, effects[k]));
    }
  }

  lemma {:induction false} ObligationsMade(before: seq<Decision>, verdicts: Obligations, order: seq<ResourceKey>)
    requires (forall k | k in order :: k in verdicts) && |before| + |order| <= MAX_DECISIONS
    ensures var r := ObligationDecisions(before, verdicts, order);
            |r| == |before| + |order| && forall k | k in order :: Made(r, ObligationDecision, k)
  {
    hide Decide, Made;
    if order != [] {
      var front, k := order[..|order| - 1], order[|order| - 1];
      assert order == front + [k];
      ObligationsMade(before, verdicts, front);
      OneMore(ObligationDecisions(before, verdicts, front), ObligationDecision, k, verdicts[k].status, verdicts[k].sources);
    }
  }

  ghost predicate SummaryKinds(r: seq<Decision>) {
    && Made(r, RackTopology, NO_SUBJECT) && Made(r, FailureDomainForestDecision, NO_SUBJECT)
    && Made(r, ConnectivityDecision, NO_SUBJECT) && Made(r, SharedResourceAccounting, NO_SUBJECT)
    && Made(r, CapacityTotal, NO_SUBJECT) && Made(r, CapacityAvailable, NO_SUBJECT)
  }

  lemma SummaryMade(before: seq<Decision>, resources: Resources, ledger: CapacityLedger, forest: SiteForest,
      connectivity: ConnectivitySummary)
    requires |before| + 6 <= MAX_DECISIONS
    ensures var r := SummaryDecisions(before, resources, ledger, forest, connectivity); |r| == |before| + 6 && SummaryKinds(r)
  {
    var order := KeyOrder(resources.Keys);
    var racks, forests := KindSources(resources, order, RACKS), KindSources(resources, order, FORESTS);
    var links, accounted := KindSources(resources, order, LINKS), KindSources(resources, order, ACCOUNTED);
    var counted := CapacitySources(ledger.entries);
    hide Decide, Made, KindSources, CapacitySources, KeyOrder;
    OneMore(before, RackTopology, NO_SUBJECT, Status.Ok, racks);
    var d1 := Decide(before, RackTopology, NO_SUBJECT, Status.Ok, racks);
    OneMore(d1, FailureDomainForestDecision, NO_SUBJECT, forest.status, forests);
    var d2 := Decide(d1, FailureDomainForestDecision, NO_SUBJECT, forest.status, forests);
    OneMore(d2, ConnectivityDecision, NO_SUBJECT, connectivity.status, links);
    var d3 := Decide(d2, ConnectivityDecision, NO_SUBJECT, connectivity.status, links);
    OneMore(d3, SharedResourceAccounting, NO_SUBJECT, Status.Ok, accounted);
    var d4 := Decide(d3, SharedResourceAccounting, NO_SUBJECT, Status.Ok, accounted);
    OneMore(d4, CapacityTotal, NO_SUBJECT, ledger.status, counted);
    var d5 := Decide(d4, CapacityTotal, NO_SUBJECT, ledger.status, counted);
    OneMore(d5, CapacityAvailable, NO_SUBJECT, ledger.status, counted);
  }

  /** Whatever is decided of the site is made. */
  ghost predicate AllMade(site: ComposedSite) {
    forall id | IsDecided(site, id) :: Made(site.decisions, id.kind, id.subject)
  }

  lemma AllAreMade(admissions: Admissions, site: ComposedSite, resources: Resources)
    requires Shows(site, resources) && Fits(site)
    requires site.decisions == WithLifecycle(BodyDecisions(admissions, resources, site.capacity, site.forest, site.maintenance,
      site.connectivity, site.obligations, site.membershipComplete), site.status)
    ensures AllMade(site)
  {
    hide Made, OpeningDecisions, OwnershipDecisions, SummaryDecisions, ZoneDecisions, ObligationDecisions, AllSources, Decide,
      SummaryKinds;
    SameCount(site, resources);
    var d0 := OpeningDecisions(admissions, site.membershipComplete);
    OpeningMade(admissions, site.membershipComplete);
    OwnershipMade(d0, resources, KeyOrder(resources.Keys));
    var d1 := OwnershipDecisions(d0, resources, KeyOrder(resources.Keys));
    SummaryMade(d1, resources, site.capacity, site.forest, site.connectivity);
    var d2 := SummaryDecisions(d1, resources, site.capacity, site.forest, site.connectivity);
    ZonesMade(d2, resources, site.maintenance, KeyOrder(site.maintenance.Keys));
    var d3 := ZoneDecisions(d2, resources, site.maintenance, KeyOrder(site.maintenance.Keys));
    ObligationsMade(d3, site.obligations, KeyOrder(site.obligations.Keys));
    var d4 := ObligationDecisions(d3, site.obligations, KeyOrder(site.obligations.Keys));
    OneMore(d4, SiteLifecycleDecision, NO_SUBJECT, site.status, AllSources(d4));
    Together(site, resources, d0, d1, d2, d3, d4);
  }

  lemma SameCount(site: ComposedSite, resources: Resources)
    requires Shows(site, resources)
    ensures site.ownership.Keys == resources.Keys && |site.ownership| == |resources.Keys|
    ensures |site.maintenance| == |site.maintenance.Keys| && |site.obligations| == |site.obligations.Keys|
  {
    assert |site.ownership| == |site.ownership.Keys|;
  }

  lemma Together(site: ComposedSite, resources: Resources, d0: seq<Decision>, d1: seq<Decision>, d2: seq<Decision>,
      d3: seq<Decision>, d4: seq<Decision>)
    requires site.ownership.Keys == resources.Keys && d0 <= d1 <= d2 <= d3 <= d4 <= site.decisions
    requires Made(d0, MembershipCompleteness, NO_SUBJECT) && Made(d0, SiteEpoch, NO_SUBJECT) && SummaryKinds(d2)
    requires forall k | k in resources :: Made(d1, OwnershipMap, k)
    requires forall k | k in site.maintenance :: Made(d3, MaintenanceExclusion, k)
    requires forall k | k in site.obligations :: Made(d4, ObligationDecision, k)
    requires Made(site.decisions, SiteLifecycleDecision, NO_SUBJECT)
    ensures AllMade(site)
  {
    hide Made;
    forall id | IsDecided(site, id) ensures Made(site.decisions, id.kind, id.subject) {
      if Made(d0, id.kind, id.subject) { MadeStays(d0, site.decisions, id.kind, id.subject); }
      if Made(d1, id.kind, id.subject) { MadeStays(d1, site.decisions, id.kind, id.subject); }
      if Made(d2, id.kind, id.subject) { MadeStays(d2, site.decisions, id.kind, id.subject); }
      if Made(d3, id.kind, id.subject) { MadeStays(d3, site.decisions, id.kind, id.subject); }
      if Made(d4, id.kind, id.subject) { MadeStays(d4, site.decisions, id.kind, id.subject); }
    }
  }

  // ----- What a changed source invalidates --------------------------------------

  /** Of a composed site whose decisions fit: a changed source invalidates exactly the
      decisions that rest on it, and retains exactly the others. */
  lemma InvalidatedIff(env: Env, input: CompositionInput, changed: SourceRef, id: DecisionId)
    requires Readable(env, input) && ComposeSite(env, input).Success? && Fits(ComposeSite(env, input).value)
    ensures var site := ComposeSite(env, input).value;
            var r := InvalidateForSource(site, changed);
            var rests := RestsOn(AdmissionsFor(env, input, Prepared(input).value), site, id, changed);
            && (id in r.invalidated <==> IsDecided(site, id) && rests)
            && (id in r.retained <==> IsDecided(site, id) && !rests)
            && (forall k :: k in r.affectedResources <==> Attests(site, k, changed))
            && (forall d :: d in r.affectedDomains <==> SubmittedBy(AdmissionsFor(env, input, Prepared(input).value), d, changed))
  {
    hide *;
    var e := PreparedFor(env, input);
    var admissions := AdmissionsFor(env, input, e);
    var resources := ResourcesOf(env, admissions);
    var site := SiteFrom(env, input, e, admissions);
    SiteParts(env, input, e, admissions);
    ShowsIt(site, resources);
    AllAreMade(admissions, site, resources);
    EveryDecisionIsGrounded(env, input);
    InvalidationPartitions(site, changed);
    ReportIff(admissions, site, changed, id, InvalidateForSource(site, changed));
    AffectedAre(site, changed);
    AdmittedAreOwn(env, input, e);
    DomainsAre(admissions, e, site, changed);
  }

  lemma DomainsAre(admissions: Admissions, e: SiteExpectation, site: ComposedSite, changed: SourceRef)
    requires OwnRecords(admissions) && site.members == MembersOf(admissions, e)
    ensures forall d :: d in InvalidateForSource(site, changed).affectedDomains <==> SubmittedBy(admissions, d, changed)
  {
    hide Selected, KindsOf, MembersOf, Find;
    forall d ensures d in InvalidateForSource(site, changed).affectedDomains <==> SubmittedBy(admissions, d, changed) {
      if changed.domain in admissions { assert site.members[changed.domain] == AdmittedState(admissions[changed.domain]); }
    }
  }

  lemma AffectedAre(site: ComposedSite, changed: SourceRef)
    ensures forall k :: k in InvalidateForSource(site, changed).affectedResources <==> Attests(site, k, changed)
  {
    hide Selected, KindsOf;
  }

  lemma ReportIff(admissions: Admissions, site: ComposedSite, changed: SourceRef, id: DecisionId, r: InvalidationReport)
    requires AllMade(site) && AllGrounded(admissions, site, site.decisions)
    requires forall i :: i in r.invalidated <==> exists d :: d in site.decisions && d.id == i && changed in d.sources
    requires forall i :: i in r.retained <==> exists d :: d in site.decisions && d.id == i && changed !in d.sources
    ensures id in r.invalidated <==> IsDecided(site, id) && RestsOn(admissions, site, id, changed)
    ensures id in r.retained <==> IsDecided(site, id) && !RestsOn(admissions, site, id, changed)
  {
    hide RestsOn, Says, IsDecided;
    forall d | d in site.decisions && d.id == id
      ensures IsDecided(site, id) && (changed in d.sources <==> RestsOn(admissions, site, id, changed))
    {
      assert Grounded(admissions, site, d);
    }
    if IsDecided(site, id) {
      assert Made(site.decisions, id.kind, id.subject);
      var d :| d in site.decisions && d.id == id;
      assert changed in d.sources || changed !in d.sources;
    }
  }
}
