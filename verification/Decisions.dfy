/** Decisions with their provenance, and what a changed source invalidates. */
module Decisions {
  import opened Model
  import opened Admission
  import opened Attribution
  import opened FailureDomains
  import opened Ledger
  import opened Maintenance
  import opened Verdicts
  import opened Membership

  datatype DecisionKind =
    | MembershipCompleteness | SiteEpoch | OwnershipMap | RackTopology | FailureDomainForestDecision
    | ConnectivityDecision | SharedResourceAccounting | CapacityTotal | CapacityAvailable
    | MaintenanceExclusion | ObligationDecision | SiteLifecycleDecision

  datatype DecisionId = DecisionId(kind: DecisionKind, subject: ResourceKey)

  datatype Decision = Decision(id: DecisionId, status: Status, sources: set<SourceRef>)

  datatype Attributed = Attributed(attestors: set<SourceRef>, consensus: Digest, distinct: nat, status: Status)

  datatype ComposedSite = ComposedSite(
    site: Text, epoch: u64, generation: u64, incarnation: Incarnation, composedAt: i64,
    members: Members, ownership: map<ResourceKey, Attributed>, capacity: CapacityLedger, forest: SiteForest,
    maintenance: Effects, connectivity: ConnectivitySummary, obligations: Obligations,
    conflicts: seq<Conflict>, deficits: seq<Deficit>,
    membershipComplete: bool, allEvidenceFresh: bool, anyConflict: bool, anyUnknownCapacity: bool,
    lifecycle: SiteLifecycle, status: Status, decisions: seq<Decision>)

  // ----- Building -----------------------------------------------------------

  /** A decision beyond the bound is dropped. */
  function Decide(decisions: seq<Decision>, kind: DecisionKind, subject: ResourceKey, status: Status,
      sources: set<SourceRef>): (r: seq<Decision>)
    ensures decisions <= r
    ensures |decisions| <= MAX_DECISIONS ==> |r| <= MAX_DECISIONS
    ensures forall d | d in r :: d in decisions || d == Decision(DecisionId(kind, subject), status, sources)
    ensures |decisions| < MAX_DECISIONS ==> Decision(DecisionId(kind, subject), status, sources) in r
  {
    if |decisions| >= MAX_DECISIONS then decisions
    else decisions + [Decision(DecisionId(kind, subject), status, sources)]
  }

  function AdmittedSources(admissions: Admissions): set<SourceRef> { SourcesOfMembers(admissions) }

  function OwnershipDecisions(before: seq<Decision>, resources: Resources, order: seq<ResourceKey>): (r: seq<Decision>)
    requires forall k | k in order :: k in resources
    ensures before <= r
    ensures |before| <= MAX_DECISIONS ==> |r| <= MAX_DECISIONS
  {
    if order == [] then before
    else
      var front, k := order[..|order| - 1], order[|order| - 1];
      assert order == front + [k];
      Decide(OwnershipDecisions(before, resources, front), OwnershipMap, k, resources[k].status, Attestors(resources[k]))
  }

  /** The attestors of the known resources among the given ones. */
  function AttestorsOf(resources: Resources, order: seq<ResourceKey>): set<SourceRef> {
    if order == [] then {}
    else
      var k := order[|order| - 1];
      AttestorsOf(resources, order[..|order| - 1]) + (if k in resources then Attestors(resources[k]) else {})
  }

  function KindSources(resources: Resources, order: seq<ResourceKey>, kinds: set<ResourceKind>): set<SourceRef>
    requires forall k | k in order :: k in resources
  {
    if order == [] then {}
    else
      var front, k := order[..|order| - 1], order[|order| - 1];
      assert order == front + [k];
      KindSources(resources, front, kinds) + (if k.kind in kinds then Attestors(resources[k]) else {})
  }

  /** Only what counts in the total vouches for it. */
  function CapacitySources(entries: seq<LedgerEntry>): set<SourceRef> {
    if entries == [] then {}
    else
      var e := entries[|entries| - 1];
      CapacitySources(entries[..|entries| - 1]) + (if e.countedInTotal then e.attestors else {})
  }

  /** A zone's own attestors and those of everything it excludes. */
  function ZoneSources(resources: Resources, z: ResourceKey, e: MaintenanceEffect): set<SourceRef> {
    AttestorsOf(resources, [z]) + AttestorsOf(resources, KeyOrder(e.excluded))
  }

  function ZoneDecisions(before: seq<Decision>, resources: Resources, effects: Effects,
      order: seq<ResourceKey>): (r: seq<Decision>)
    requires forall k | k in order :: k in effects
    ensures before <= r
    ensures |before| <= MAX_DECISIONS ==> |r| <= MAX_DECISIONS
  {
    if order == [] then before
    else
      var front, k := order[..|order| - 1], order[|order| - 1];
      assert order == front + [k];
      Decide(ZoneDecisions(before, resources, effects, front), MaintenanceExclusion, k, effects[k].status,
             ZoneSources(resources, k, effects[k]))
  }

  function ObligationDecisions(before: seq<Decision>, verdicts: Obligations,
      order: seq<ResourceKey>): (r: seq<Decision>)
    requires forall k | k in order :: k in verdicts
    ensures before <= r
    ensures |before| <= MAX_DECISIONS ==> |r| <= MAX_DECISIONS
  {
    if order == [] then before
    else
      var front, k := order[..|order| - 1], order[|order| - 1];
      assert order == front + [k];
      Decide(ObligationDecisions(before, verdicts, front), ObligationDecision, k, verdicts[k].status, verdicts[k].sources)
  }

  function AllSources(decisions: seq<Decision>): set<SourceRef> {
    if decisions == [] then {}
    else AllSources(decisions[..|decisions| - 1]) + decisions[|decisions| - 1].sources
  }

  const RACKS := {RackKind}
  const LINKS := {SharedLinkKind, GatewayKind}
  const ACCOUNTED := {SharedLinkKind, GatewayKind, CapacityPoolKind}
  const FORESTS := {FailureDomainKind}

  function OpeningDecisions(admissions: Admissions, complete: bool): seq<Decision> {
    var sources := AdmittedSources(admissions);
    Decide(Decide([], MembershipCompleteness, NO_SUBJECT, if complete then Status.Ok else Status.Incomplete, sources),
           SiteEpoch, NO_SUBJECT, Status.Ok, sources)
  }

  function SummaryDecisions(before: seq<Decision>, resources: Resources, ledger: CapacityLedger, forest: SiteForest,
      connectivity: ConnectivitySummary): (r: seq<Decision>)
    ensures before <= r
    ensures |before| <= MAX_DECISIONS ==> |r| <= MAX_DECISIONS
  {
    var order := KeyOrder(resources.Keys);
    var capacity := CapacitySources(ledger.entries);
    var d1 := Decide(before, RackTopology, NO_SUBJECT, Status.Ok, KindSources(resources, order, RACKS));
    var d2 := Decide(d1, FailureDomainForestDecision, NO_SUBJECT, forest.status, KindSources(resources, order, FORESTS));
    var d3 := Decide(d2, ConnectivityDecision, NO_SUBJECT, connectivity.status, KindSources(resources, order, LINKS));
    var d4 := Decide(d3, SharedResourceAccounting, NO_SUBJECT, Status.Ok, KindSources(resources, order, ACCOUNTED));
    var d5 := Decide(d4, CapacityTotal, NO_SUBJECT, ledger.status, capacity);
    Decide(d5, CapacityAvailable, NO_SUBJECT, ledger.status, capacity)
  }

  /** Every decision but the last, in the order they are made. */
  function BodyDecisions(admissions: Admissions, resources: Resources, ledger: CapacityLedger, forest: SiteForest,
      effects: Effects, connectivity: ConnectivitySummary, verdicts: Obligations, complete: bool): seq<Decision>
  {
    var d1 := OwnershipDecisions(OpeningDecisions(admissions, complete), resources, KeyOrder(resources.Keys));
    var d2 := SummaryDecisions(d1, resources, ledger, forest, connectivity);
    var d3 := ZoneDecisions(d2, resources, effects, KeyOrder(effects.Keys));
    ObligationDecisions(d3, verdicts, KeyOrder(verdicts.Keys))
  }

  /** The verdict on the site rests on everything that was decided before it. */
  function WithLifecycle(decisions: seq<Decision>, status: Status): seq<Decision> {
    Decide(decisions, SiteLifecycleDecision, NO_SUBJECT, status, AllSources(decisions))
  }

  // ----- Provenance ---------------------------------------------------------

  ghost predicate Within(decisions: seq<Decision>, s: set<SourceRef>) { forall d | d in decisions :: d.sources <= s }

  lemma DecideWithin(before: seq<Decision>, kind: DecisionKind, subject: ResourceKey, status: Status,
      sources: set<SourceRef>, s: set<SourceRef>)
    requires Within(before, s) && sources <= s
    ensures Within(Decide(before, kind, subject, status, sources), s)
  {
    hide Decide;
  }

  ghost predicate ResourcesWithin(resources: Resources, s: set<SourceRef>) {
    forall k | k in resources :: Attestors(resources[k]) <= s
  }

  lemma {:induction false} OwnershipWithin(before: seq<Decision>, resources: Resources, order: seq<ResourceKey>,
      s: set<SourceRef>)
    requires forall k | k in order :: k in resources
    requires Within(before, s) && ResourcesWithin(resources, s)
    ensures Within(OwnershipDecisions(before, resources, order), s)
  {
    hide Within;
    if order != [] {
      var front, k := order[..|order| - 1], order[|order| - 1];
      assert order == front + [k];
      OwnershipWithin(before, resources, front, s);
      DecideWithin(OwnershipDecisions(before, resources, front), OwnershipMap, k, resources[k].status, Attestors(resources[k]), s);
    }
  }

  lemma {:induction false} AttestorsWithin(resources: Resources, order: seq<ResourceKey>, s: set<SourceRef>)
    requires ResourcesWithin(resources, s)
    ensures AttestorsOf(resources, order) <= s
  {
    hide Attestors;
    if order != [] { AttestorsWithin(resources, order[..|order| - 1], s); }
  }

  lemma {:induction false} KindsWithin(resources: Resources, order: seq<ResourceKey>, kinds: set<ResourceKind>,
      s: set<SourceRef>)
    requires forall k | k in order :: k in resources
    requires ResourcesWithin(resources, s)
    ensures KindSources(resources, order, kinds) <= s
  {
    hide Attestors;
    if order != [] {
      var front, k := order[..|order| - 1], order[|order| - 1];
      assert order == front + [k];
      KindsWithin(resources, front, kinds, s);
    }
  }

  lemma {:induction false} CapacityWithin(entries: seq<LedgerEntry>, s: set<SourceRef>)
    requires forall e | e in entries :: e.attestors <= s
    ensures CapacitySources(entries) <= s
  {
    if entries != [] {
      assert entries == entries[..|entries| - 1] + [entries[|entries| - 1]];
      CapacityWithin(entries[..|entries| - 1], s);
    }
  }

  lemma {:induction false} ZonesWithin(before: seq<Decision>, resources: Resources, effects: Effects,
      order: seq<ResourceKey>, s: set<SourceRef>)
    requires forall k | k in order :: k in effects
    requires Within(before, s) && ResourcesWithin(resources, s)
    ensures Within(ZoneDecisions(before, resources, effects, order), s)
  {
    hide Within, ResourcesWithin, AttestorsOf;
    if order != [] {
      var front, k := order[..|order| - 1], order[|order| - 1];
      assert order == front + [k];
      ZonesWithin(before, resources, effects, front, s);
      AttestorsWithin(resources, [k], s);
      AttestorsWithin(resources, KeyOrder(effects[k].excluded), s);
      DecideWithin(ZoneDecisions(before, resources, effects, front), MaintenanceExclusion, k, effects[k].status,
        ZoneSources(resources, k, effects[k]), s);
    }
  }

  lemma {:induction false} ObligationsWithin(before: seq<Decision>, verdicts: Obligations, order: seq<ResourceKey>,
      s: set<SourceRef>)
    requires forall k | k in order :: k in verdicts
    requires Within(before, s) && forall k | k in verdicts :: verdicts[k].sources <= s
    ensures Within(ObligationDecisions(before, verdicts, order), s)
  {
    hide Within;
    if order != [] {
      var front, k := order[..|order| - 1], order[|order| - 1];
      assert order == front + [k];
      ObligationsWithin(before, verdicts, front, s);
      DecideWithin(ObligationDecisions(before, verdicts, front), ObligationDecision, k, verdicts[k].status, verdicts[k].sources, s);
    }
  }

  lemma SummaryWithin(before: seq<Decision>, resources: Resources, ledger: CapacityLedger, forest: SiteForest,
      connectivity: ConnectivitySummary, s: set<SourceRef>)
    requires Within(before, s) && ResourcesWithin(resources, s)
    requires forall e | e in ledger.entries :: e.attestors <= s
    ensures Within(SummaryDecisions(before, resources, ledger, forest, connectivity), s)
  {
    var order := KeyOrder(resources.Keys);
    KindsWithin(resources, order, RACKS, s);
    KindsWithin(resources, order, FORESTS, s);
    KindsWithin(resources, order, LINKS, s);
    KindsWithin(resources, order, ACCOUNTED, s);
    CapacityWithin(ledger.entries, s);
    hide Within, ResourcesWithin, KindSources, CapacitySources, Decide;
    var d1 := Decide(before, RackTopology, NO_SUBJECT, Status.Ok, KindSources(resources, order, RACKS));
    DecideWithin(before, RackTopology, NO_SUBJECT, Status.Ok, KindSources(resources, order, RACKS), s);
    var d2 := Decide(d1, FailureDomainForestDecision, NO_SUBJECT, forest.status, KindSources(resources, order, FORESTS));
    DecideWithin(d1, FailureDomainForestDecision, NO_SUBJECT, forest.status, KindSources(resources, order, FORESTS), s);
    var d3 := Decide(d2, ConnectivityDecision, NO_SUBJECT, connectivity.status, KindSources(resources, order, LINKS));
    DecideWithin(d2, ConnectivityDecision, NO_SUBJECT, connectivity.status, KindSources(resources, order, LINKS), s);
    var d4 := Decide(d3, SharedResourceAccounting, NO_SUBJECT, Status.Ok, KindSources(resources, order, ACCOUNTED));
    DecideWithin(d3, SharedResourceAccounting, NO_SUBJECT, Status.Ok, KindSources(resources, order, ACCOUNTED), s);
    var d5 := Decide(d4, CapacityTotal, NO_SUBJECT, ledger.status, CapacitySources(ledger.entries));
    DecideWithin(d4, CapacityTotal, NO_SUBJECT, ledger.status, CapacitySources(ledger.entries), s);
    DecideWithin(d5, CapacityAvailable, NO_SUBJECT, ledger.status, CapacitySources(ledger.entries), s);
  }

  lemma {:induction false} AllSourcesAt(decisions: seq<Decision>, x: SourceRef)
    ensures x in AllSources(decisions) <==> exists d :: d in decisions && x in d.sources
  {
    if decisions != [] {
      var front, last := decisions[..|decisions| - 1], decisions[|decisions| - 1];
      assert decisions == front + [last];
      AllSourcesAt(front, x);
      assert last in decisions;
    }
  }

  /** Below the bound, the verdict on the site is recorded and depends on every
      source of every other decision. */
  lemma LifecycleDependsOnAll(body: seq<Decision>, status: Status)
    requires |body| < MAX_DECISIONS
    ensures var all := WithLifecycle(body, status);
            && body <= all
            && exists d :: d in all && d.id == DecisionId(SiteLifecycleDecision, NO_SUBJECT)
                 && forall b | b in body :: b.sources <= d.sources
  {
    var all := WithLifecycle(body, status);
    var d := Decision(DecisionId(SiteLifecycleDecision, NO_SUBJECT), status, AllSources(body));
    assert d in all;
    forall b | b in body ensures b.sources <= d.sources {
      forall x | x in b.sources ensures x in d.sources { AllSourcesAt(body, x); }
    }
  }

  lemma OpeningIsFirst(admissions: Admissions, complete: bool)
    ensures var o := OpeningDecisions(admissions, complete);
            o != [] && o[0].sources == AdmittedSources(admissions)
            && o[0].id == DecisionId(MembershipCompleteness, NO_SUBJECT)
  {
  }

  // ----- Invalidation -------------------------------------------------------

  datatype InvalidationReport = InvalidationReport(
    invalidated: seq<DecisionId>, retained: seq<DecisionId>, required: set<DecisionKind>,
    affectedDomains: set<MemberDomainKey>, affectedResources: set<ResourceKey>)

  function Selected(decisions: seq<Decision>, p: Decision -> bool): seq<DecisionId> {
    if decisions == [] then []
    else
      var d := decisions[|decisions| - 1];
      var before := Selected(decisions[..|decisions| - 1], p);
      if p(d) then before + [d.id] else before
  }

  function KindsOf(ids: seq<DecisionId>): set<DecisionKind> { set i | i in ids :: i.kind }

  function Ids(decisions: seq<Decision>): seq<DecisionId> {
    if decisions == [] then [] else Ids(decisions[..|decisions| - 1]) + [decisions[|decisions| - 1].id]
  }

  function InvalidateForSource(site: ComposedSite, changed: SourceRef): InvalidationReport {
    var depends := (d: Decision) => changed in d.sources;
    var spared := (d: Decision) => changed !in d.sources;
    var invalidated := Selected(site.decisions, depends);
    InvalidationReport(invalidated, Selected(site.decisions, spared), KindsOf(invalidated),
      if changed.domain in site.members && site.members[changed.domain].source == Some(changed) then {changed.domain} else {},
      set k | k in site.ownership && changed in site.ownership[k].attestors)
  }

  lemma {:induction false} SelectedAt(decisions: seq<Decision>, p: Decision -> bool, id: DecisionId)
    ensures id in Selected(decisions, p) <==> exists d :: d in decisions && p(d) && d.id == id
  {
    if decisions != [] {
      var front, last := decisions[..|decisions| - 1], decisions[|decisions| - 1];
      assert decisions == front + [last];
      SelectedAt(front, p, id);
      assert last in decisions;
    }
  }

  lemma {:induction false} SelectedSplits(decisions: seq<Decision>, p: Decision -> bool, q: Decision -> bool)
    requires forall d :: p(d) <==> !q(d)
    ensures multiset(Selected(decisions, p)) + multiset(Selected(decisions, q)) == multiset(Ids(decisions))
  {
    if decisions != [] {
      SelectedSplits(decisions[..|decisions| - 1], p, q);
    }
  }

  /** Invalidated and retained decisions split the decisions of a site exactly by
      whether the changed source is among their sources. */
  lemma InvalidationPartitions(site: ComposedSite, changed: SourceRef)
    ensures var r := InvalidateForSource(site, changed);
            && multiset(r.invalidated) + multiset(r.retained) == multiset(Ids(site.decisions))
            && (forall id :: id in r.invalidated <==> exists d :: d in site.decisions && d.id == id && changed in d.sources)
            && (forall id :: id in r.retained <==> exists d :: d in site.decisions && d.id == id && changed !in d.sources)
            && (forall k :: k in r.required <==> exists d :: d in site.decisions && d.id.kind == k && changed in d.sources)
  {
    var depends := (d: Decision) => changed in d.sources;
    var spared := (d: Decision) => changed !in d.sources;
    var r := InvalidateForSource(site, changed);
    assert r.invalidated == Selected(site.decisions, depends) && r.retained == Selected(site.decisions, spared);
    SelectedSplits(site.decisions, depends, spared);
    hide Selected, Ids;
    forall id ensures id in r.invalidated <==> exists d :: d in site.decisions && d.id == id && changed in d.sources {
      SelectedAt(site.decisions, depends, id);
    }
    forall id ensures id in r.retained <==> exists d :: d in site.decisions && d.id == id && changed !in d.sources {
      SelectedAt(site.decisions, spared, id);
    }
    RequiredKinds(site, changed, r.invalidated);
  }

  lemma RequiredKinds(site: ComposedSite, changed: SourceRef, invalidated: seq<DecisionId>)
    requires forall id :: id in invalidated <==> exists d :: d in site.decisions && d.id == id && changed in d.sources
    ensures forall k :: k in KindsOf(invalidated) <==> exists d :: d in site.decisions && d.id.kind == k && changed in d.sources
  {
    forall k ensures k in KindsOf(invalidated) <==> exists d :: d in site.decisions && d.id.kind == k && changed in d.sources {
      if d :| d in site.decisions && d.id.kind == k && changed in d.sources { assert d.id in invalidated; }
    }
  }

  // ----- The loops ----------------------------------------------------------

  /** Attestors by the decision they support. */
  datatype Gathered = Gathered(racks: set<SourceRef>, links: set<SourceRef>, accounting: set<SourceRef>, forests: set<SourceRef>)

  function GatheredFrom(resources: Resources, order: seq<ResourceKey>): Gathered
    requires forall k | k in order :: k in resources
  {
    Gathered(KindSources(resources, order, RACKS), KindSources(resources, order, LINKS),
             KindSources(resources, order, ACCOUNTED), KindSources(resources, order, FORESTS))
  }

  lemma GatheredStep(resources: Resources, order: seq<ResourceKey>, i: nat)
    requires i < |order| && forall k | k in order :: k in resources
    ensures order[i] in resources && forall k | k in order[..i + 1] :: k in resources
    ensures var before, attestors, kind := GatheredFrom(resources, order[..i]), Attestors(resources[order[i]]), order[i].kind;
            GatheredFrom(resources, order[..i + 1]) == Gathered(
              before.racks + (if kind in RACKS then attestors else {}), before.links + (if kind in LINKS then attestors else {}),
              before.accounting + (if kind in ACCOUNTED then attestors else {}),
              before.forests + (if kind in FORESTS then attestors else {}))
  {
    hide KindSources, Attestors;
    KindStep(resources, order, i, RACKS);
    KindStep(resources, order, i, LINKS);
    KindStep(resources, order, i, ACCOUNTED);
    KindStep(resources, order, i, FORESTS);
  }

  method Gather(before: Gathered, kind: ResourceKind, attestors: set<SourceRef>) returns (g: Gathered)
    ensures g == Gathered(
      before.racks + (if kind in RACKS then attestors else {}), before.links + (if kind in LINKS then attestors else {}),
      before.accounting + (if kind in ACCOUNTED then attestors else {}),
      before.forests + (if kind in FORESTS then attestors else {}))
  {
    g := before;
    match kind
    case RackKind => g := g.(racks := g.racks + attestors);
    case SharedLinkKind => g := g.(links := g.links + attestors, accounting := g.accounting + attestors);
    case GatewayKind => g := g.(links := g.links + attestors, accounting := g.accounting + attestors);
    case CapacityPoolKind => g := g.(accounting := g.accounting + attestors);
    case FailureDomainKind => g := g.(forests := g.forests + attestors);
    case _ =>
  }

  method DecideOwnership(before: seq<Decision>, resources: Resources) returns (decisions: seq<Decision>, g: Gathered)
    ensures decisions == OwnershipDecisions(before, resources, KeyOrder(resources.Keys))
    ensures g == GatheredFrom(resources, KeyOrder(resources.Keys))
  {
    hide *;
    var order := KeyOrder(resources.Keys);
    decisions, g := before, Gathered({}, {}, {}, {});
    NothingDecided(before, resources);
    for i := 0 to |order|
      invariant forall k | k in order[..i] :: k in resources
      invariant decisions == OwnershipDecisions(before, resources, order[..i])
      invariant g == GatheredFrom(resources, order[..i])
    {
      var k := order[i];
      OwnershipStep(before, resources, order, i);
      GatheredStep(resources, order, i);
      var attestors := Attestors(resources[k]);
      decisions := Decide(decisions, OwnershipMap, k, resources[k].status, attestors);
      g := Gather(g, k.kind, attestors);
    }
    assert order[..|order|] == order;
  }

  lemma NothingDecided(before: seq<Decision>, resources: Resources)
    ensures OwnershipDecisions(before, resources, []) == before
    ensures GatheredFrom(resources, []) == Gathered({}, {}, {}, {})
  {
  }

  lemma OwnershipStep(before: seq<Decision>, resources: Resources, order: seq<ResourceKey>, i: nat)
    requires i < |order| && forall k | k in order :: k in resources
    ensures order[i] in resources && forall k | k in order[..i + 1] :: k in resources
    ensures OwnershipDecisions(before, resources, order[..i + 1])
      == Decide(OwnershipDecisions(before, resources, order[..i]), OwnershipMap, order[i], resources[order[i]].status,
                Attestors(resources[order[i]]))
  {
    hide Decide, Attestors;
    OrderStep(order, i);
  }

  lemma KindStep(resources: Resources, order: seq<ResourceKey>, i: nat, kinds: set<ResourceKind>)
    requires i < |order| && forall k | k in order :: k in resources
    ensures order[i] in resources && forall k | k in order[..i + 1] :: k in resources
    ensures KindSources(resources, order[..i + 1], kinds)
      == KindSources(resources, order[..i], kinds) + (if order[i].kind in kinds then Attestors(resources[order[i]]) else {})
  {
    hide Attestors;
    OrderStep(order, i);
  }

  method GatherAttestors(resources: Resources, keys: set<ResourceKey>) returns (sources: set<SourceRef>)
    ensures sources == AttestorsOf(resources, KeyOrder(keys))
  {
    hide *;
    var order := KeyOrder(keys);
    sources := {};
    NobodyAttests(resources);
    for i := 0 to |order|
      invariant sources == AttestorsOf(resources, order[..i])
    {
      AttestorsStep(resources, order, i);
      if order[i] in resources { sources := sources + Attestors(resources[order[i]]); }
    }
    assert order[..|order|] == order;
  }

  lemma NobodyAttests(resources: Resources)
    ensures AttestorsOf(resources, []) == {}
  {
  }

  lemma AttestorsStep(resources: Resources, order: seq<ResourceKey>, i: nat)
    requires i < |order|
    ensures AttestorsOf(resources, order[..i + 1])
      == AttestorsOf(resources, order[..i]) + (if order[i] in resources then Attestors(resources[order[i]]) else {})
  {
    hide Attestors;
    assert order[..i + 1][..i] == order[..i];
  }

  method GatherCounted(entries: seq<LedgerEntry>) returns (sources: set<SourceRef>)
    ensures sources == CapacitySources(entries)
  {
    sources := {};
    for i := 0 to |entries|
      invariant sources == CapacitySources(entries[..i])
    {
      assert entries[..i + 1][..i] == entries[..i];
      if entries[i].countedInTotal { sources := sources + entries[i].attestors; }
    }
    assert entries[..|entries|] == entries;
  }

  lemma NoZones(before: seq<Decision>, resources: Resources, effects: Effects)
    ensures ZoneDecisions(before, resources, effects, []) == before
  {
  }

  lemma ZonesStep(before: seq<Decision>, resources: Resources, effects: Effects, order: seq<ResourceKey>, i: nat)
    requires i < |order| && forall k | k in order :: k in effects
    ensures order[i] in effects && forall k | k in order[..i + 1] :: k in effects
    ensures ZoneDecisions(before, resources, effects, order[..i + 1])
      == Decide(ZoneDecisions(before, resources, effects, order[..i]), MaintenanceExclusion, order[i],
                effects[order[i]].status, ZoneSources(resources, order[i], effects[order[i]]))
  {
    hide Decide, ZoneSources;
    OrderStep(order, i);
  }

  method DecideZones(before: seq<Decision>, resources: Resources, effects: Effects) returns (decisions: seq<Decision>)
    ensures decisions == ZoneDecisions(before, resources, effects, KeyOrder(effects.Keys))
  {
    hide *;
    var order := KeyOrder(effects.Keys);
    decisions := before;
    NoZones(before, resources, effects);
    for i := 0 to |order|
      invariant forall k | k in order[..i] :: k in effects
      invariant decisions == ZoneDecisions(before, resources, effects, order[..i])
    {
      ZonesStep(before, resources, effects, order, i);
      var z := order[i];
      var sources := SourcesOfZone(resources, z, effects[z]);
      decisions := Decide(decisions, MaintenanceExclusion, z, effects[z].status, sources);
    }
    assert order[..|order|] == order;
  }

  method SourcesOfZone(resources: Resources, z: ResourceKey, e: MaintenanceEffect) returns (sources: set<SourceRef>)
    ensures sources == ZoneSources(resources, z, e)
  {
    hide Attestors, AttestorsOf;
    sources := {};
    if z in resources { sources := Attestors(resources[z]); }
    OneAttested(resources, z);
    var more := GatherAttestors(resources, e.excluded);
    sources := sources + more;
  }

  lemma OneAttested(resources: Resources, z: ResourceKey)
    ensures AttestorsOf(resources, [z]) == if z in resources then Attestors(resources[z]) else {}
  {
    assert [z][..0] == [];
  }

  lemma NoObligations(before: seq<Decision>, verdicts: Obligations)
    ensures ObligationDecisions(before, verdicts, []) == before
  {
  }

  lemma ObligationsStep(before: seq<Decision>, verdicts: Obligations, order: seq<ResourceKey>, i: nat)
    requires i < |order| && forall k | k in order :: k in verdicts
    ensures order[i] in verdicts && forall k | k in order[..i + 1] :: k in verdicts
    ensures ObligationDecisions(before, verdicts, order[..i + 1])
      == Decide(ObligationDecisions(before, verdicts, order[..i]), ObligationDecision, order[i],
                verdicts[order[i]].status, verdicts[order[i]].sources)
  {
    hide Decide;
    OrderStep(order, i);
  }

  method DecideObligations(before: seq<Decision>, verdicts: Obligations) returns (decisions: seq<Decision>)
    ensures decisions == ObligationDecisions(before, verdicts, KeyOrder(verdicts.Keys))
  {
    hide *;
    var order := KeyOrder(verdicts.Keys);
    decisions := before;
    NoObligations(before, verdicts);
    for i := 0 to |order|
      invariant forall k | k in order[..i] :: k in verdicts
      invariant decisions == ObligationDecisions(before, verdicts, order[..i])
    {
      ObligationsStep(before, verdicts, order, i);
      decisions := Decide(decisions, ObligationDecision, order[i], verdicts[order[i]].status, verdicts[order[i]].sources);
    }
    assert order[..|order|] == order;
  }

  method BuildDecisions(admissions: Admissions, resources: Resources, ledger: CapacityLedger, forest: SiteForest,
      effects: Effects, connectivity: ConnectivitySummary, verdicts: Obligations, complete: bool, status: Status)
      returns (decisions: seq<Decision>)
    ensures decisions == WithLifecycle(BodyDecisions(admissions, resources, ledger, forest, effects, connectivity, verdicts, complete), status)
  {
    hide OwnershipDecisions, KindSources, CapacitySources, ZoneDecisions, ObligationDecisions, AllSources, Decide,
      AdmittedSources;
    var membershipSources := AdmittedSources(admissions);
    decisions := Decide([], MembershipCompleteness, NO_SUBJECT, if complete then Status.Ok else Status.Incomplete, membershipSources);
    decisions := Decide(decisions, SiteEpoch, NO_SUBJECT, Status.Ok, membershipSources);
    var g;
    decisions, g := DecideOwnership(decisions, resources);
    var capacity := GatherCounted(ledger.entries);
    decisions := Decide(decisions, RackTopology, NO_SUBJECT, Status.Ok, g.racks);
    decisions := Decide(decisions, FailureDomainForestDecision, NO_SUBJECT, forest.status, g.forests);
    decisions := Decide(decisions, ConnectivityDecision, NO_SUBJECT, connectivity.status, g.links);
    decisions := Decide(decisions, SharedResourceAccounting, NO_SUBJECT, Status.Ok, g.accounting);
    decisions := Decide(decisions, CapacityTotal, NO_SUBJECT, ledger.status, capacity);
    decisions := Decide(decisions, CapacityAvailable, NO_SUBJECT, ledger.status, capacity);
    decisions := DecideZones(decisions, resources, effects);
    decisions := DecideObligations(decisions, verdicts);
    var lifecycleSources := UnionOfSources(decisions);
    decisions := Decide(decisions, SiteLifecycleDecision, NO_SUBJECT, status, lifecycleSources);
  }

  method UnionOfSources(decisions: seq<Decision>) returns (sources: set<SourceRef>)
    ensures sources == AllSources(decisions)
  {
    sources := {};
    for i := 0 to |decisions|
      invariant sources == AllSources(decisions[..i])
    {
      assert decisions[..i + 1][..i] == decisions[..i];
      sources := sources + decisions[i].sources;
    }
    assert decisions[..|decisions|] == decisions;
  }

  /** One pass over the decisions of a site. */
  method Invalidate(site: ComposedSite, changed: SourceRef) returns (report: InvalidationReport)
    ensures report == InvalidateForSource(site, changed)
  {
    ghost var depends := (d: Decision) => changed in d.sources;
    ghost var spared := (d: Decision) => changed !in d.sources;
    var invalidated, retained, required := [], [], {};
    for i := 0 to |site.decisions|
      invariant invalidated == Selected(site.decisions[..i], depends)
      invariant retained == Selected(site.decisions[..i], spared)
      invariant required == KindsOf(invalidated)
    {
      var d := site.decisions[i];
      assert site.decisions[..i + 1][..i] == site.decisions[..i];
      if changed in d.sources {
        assert KindsOf(invalidated + [d.id]) == KindsOf(invalidated) + {d.id.kind};
        invalidated := invalidated + [d.id];
        required := required + {d.id.kind};
      } else {
        retained := retained + [d.id];
      }
    }
    assert site.decisions[..|site.decisions|] == site.decisions;
    var domains := {};
    if changed.domain in site.members && site.members[changed.domain].source == Some(changed) { domains := {changed.domain}; }
    report := InvalidationReport(invalidated, retained, required, domains,
      set k | k in site.ownership && changed in site.ownership[k].attestors);
  }
}
