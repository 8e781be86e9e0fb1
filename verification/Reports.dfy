/** What a composed site reports: exactly which conflicts and which deficits. */
module Reports {
  import opened Model
  import opened Admission
  import opened Attribution
  import opened Forest
  import opened FailureDomains
  import opened Maintenance
  import opened Membership
  import opened Compose
  import Order

  // ----- Conflicts ------------------------------------------------------------

  /** Two contents are claimed for a resource. */
  ghost predicate OwnershipContested(resources: Resources, x: Conflict) {
    exists k | k in resources ::
      && (resources[k].status == Status.OwnershipOverlap || resources[k].status == Status.AccountingConflict)
      && x == Conflict(resources[k].status, k, Attestors(resources[k]))
  }

  /** Parents close a circle. */
  predicate CircleFound(forest: SiteForest, x: Conflict) {
    forest.cyclic != {} && x == Conflict(Status.FailureDomainCycle, NO_SUBJECT, {})
  }

  /** The claims about a failure domain differ, or leave its class open. */
  ghost predicate NodeContested(nodes: seq<FailureDomainNode>, resources: Resources, x: Conflict) {
    exists n | n in nodes ::
      && n.status == Status.FailureDomainConflict && DomainKey(n.id) in resources
      && x == Conflict(Status.FailureDomainConflict, DomainKey(n.id), Attestors(resources[DomainKey(n.id)]))
  }

  /** A zone is refused. */
  ghost predicate ZoneContested(resources: Resources, effects: Effects, x: Conflict) {
    exists k | k in effects && k in resources ::
      effects[k].status == Status.MaintenanceConflict && x == Conflict(Status.MaintenanceConflict, k, Attestors(resources[k]))
  }

  /** A member's declaration is not to be trusted. */
  ghost predicate MemberContested(members: Members, x: Conflict) {
    exists d | d in members ::
      && members[d].lifecycle == ConflictingMember
      && x == Conflict(members[d].status, NO_SUBJECT, Parties(members[d].source))
  }

  /** Everything reportable is reported while there is room, and nothing else is. */
  ghost predicate Lists<T(!new)>(list: seq<T>, bound: nat, p: T -> bool) {
    && |list| <= bound && (forall x | x in list :: p(x)) && (|list| < bound ==> forall x | p(x) :: x in list)
  }

  lemma ConflictAdded(before: seq<Conflict>, c: Conflict, p: Conflict -> bool, q: Conflict -> bool)
    requires Lists(before, MAX_CONFLICTS, p)
    requires forall x :: q(x) <==> p(x) || x == c
    ensures Lists(AddConflict(before, c), MAX_CONFLICTS, q)
  {
  }

  lemma {:induction false} OwnershipLists(resources: Resources, order: seq<ResourceKey>, q: Conflict -> bool)
    requires forall k | k in order :: k in resources
    requires forall x :: q(x) <==> exists k | k in order ::
               Disputed(resources[k]) && x == Conflict(resources[k].status, k, Attestors(resources[k]))
    ensures Lists(OwnershipConflicts(resources, order), MAX_CONFLICTS, q)
  {
    hide Attestors, AddConflict, Disputed;
    if order != [] {
      var front, k := order[..|order| - 1], order[|order| - 1];
      assert order == front + [k];
      var p := (x: Conflict) => exists j | j in front ::
        Disputed(resources[j]) && x == Conflict(resources[j].status, j, Attestors(resources[j]));
      OwnershipLists(resources, front, p);
      if Disputed(resources[k]) {
        ConflictAdded(OwnershipConflicts(resources, front), Conflict(resources[k].status, k, Attestors(resources[k])), p, q);
      }
    }
  }

  lemma {:induction false} NodeLists(before: seq<Conflict>, nodes: seq<FailureDomainNode>, resources: Resources,
      p: Conflict -> bool, q: Conflict -> bool)
    requires Lists(before, MAX_CONFLICTS, p) && forall x :: q(x) <==> p(x) || NodeContested(nodes, resources, x)
    ensures Lists(NodeConflicts(before, nodes, resources), MAX_CONFLICTS, q)
  {
    hide Attestors, AddConflict;
    if nodes != [] {
      var front, n := nodes[..|nodes| - 1], nodes[|nodes| - 1];
      assert nodes == front + [n];
      var r := (x: Conflict) => p(x) || NodeContested(front, resources, x);
      NodeLists(before, front, resources, p, r);
      if n.status == Status.FailureDomainConflict && DomainKey(n.id) in resources {
        ConflictAdded(NodeConflicts(before, front, resources),
          Conflict(Status.FailureDomainConflict, DomainKey(n.id), Attestors(resources[DomainKey(n.id)])), r, q);
      }
    }
  }

  lemma ForestLists(before: seq<Conflict>, forest: SiteForest, resources: Resources, p: Conflict -> bool, q: Conflict -> bool)
    requires Lists(before, MAX_CONFLICTS, p)
    requires forall x :: q(x) <==> p(x) || CircleFound(forest, x) || NodeContested(forest.nodes, resources, x)
    ensures Lists(ForestConflicts(before, forest, resources), MAX_CONFLICTS, q)
  {
    hide AddConflict, NodeContested, NodeConflicts;
    var r := (x: Conflict) => p(x) || CircleFound(forest, x);
    if forest.cyclic != {} {
      ConflictAdded(before, Conflict(Status.FailureDomainCycle, NO_SUBJECT, {}), p, r);
      NodeLists(AddConflict(before, Conflict(Status.FailureDomainCycle, NO_SUBJECT, {})), forest.nodes, resources, r, q);
    } else {
      NodeLists(before, forest.nodes, resources, p, q);
    }
  }

  lemma {:induction false} ZoneLists(before: seq<Conflict>, resources: Resources, effects: Effects, order: seq<ResourceKey>,
      p: Conflict -> bool, q: Conflict -> bool)
    requires forall k | k in order :: k in effects && k in resources
    requires Lists(before, MAX_CONFLICTS, p)
    requires forall x :: q(x) <==> p(x) || exists k | k in order ::
               effects[k].status == Status.MaintenanceConflict && x == Conflict(Status.MaintenanceConflict, k, Attestors(resources[k]))
    ensures Lists(ZoneConflicts(before, resources, effects, order), MAX_CONFLICTS, q)
  {
    hide Attestors, AddConflict;
    if order != [] {
      var front, k := order[..|order| - 1], order[|order| - 1];
      assert order == front + [k];
      var r := (x: Conflict) => p(x) || exists j | j in front ::
        effects[j].status == Status.MaintenanceConflict && x == Conflict(Status.MaintenanceConflict, j, Attestors(resources[j]));
      ZoneLists(before, resources, effects, front, p, r);
      if effects[k].status == Status.MaintenanceConflict {
        ConflictAdded(ZoneConflicts(before, resources, effects, front),
          Conflict(Status.MaintenanceConflict, k, Attestors(resources[k])), r, q);
      }
    }
  }

  lemma {:induction false} MemberLists(before: seq<Conflict>, members: Members, order: seq<MemberDomainKey>,
      p: Conflict -> bool, q: Conflict -> bool)
    requires forall d | d in order :: d in members
    requires Lists(before, MAX_CONFLICTS, p)
    requires forall x :: q(x) <==> p(x) || exists d | d in order ::
               members[d].lifecycle == ConflictingMember && x == Conflict(members[d].status, NO_SUBJECT, Parties(members[d].source))
    ensures Lists(MemberConflicts(before, members, order), MAX_CONFLICTS, q)
  {
    hide Parties, AddConflict;
    if order != [] {
      var front, d := order[..|order| - 1], order[|order| - 1];
      assert order == front + [d];
      var r := (x: Conflict) => p(x) || exists j | j in front ::
        members[j].lifecycle == ConflictingMember && x == Conflict(members[j].status, NO_SUBJECT, Parties(members[j].source));
      MemberLists(before, members, front, p, r);
      if members[d].lifecycle == ConflictingMember {
        ConflictAdded(MemberConflicts(before, members, front), Conflict(members[d].status, NO_SUBJECT, Parties(members[d].source)), r, q);
      }
    }
  }

  /** Something is in conflict with something. */
  ghost predicate Contested(resources: Resources, forest: SiteForest, effects: Effects, members: Members, x: Conflict) {
    || OwnershipContested(resources, x) || CircleFound(forest, x) || NodeContested(forest.nodes, resources, x)
    || ZoneContested(resources, effects, x) || MemberContested(members, x)
  }

  lemma ResourcesReport(resources: Resources, forest: SiteForest, q: Conflict -> bool)
    requires forall x :: q(x) <==> OwnershipContested(resources, x) || CircleFound(forest, x) || NodeContested(forest.nodes, resources, x)
    ensures Lists(ForestConflicts(OwnershipConflicts(resources, KeyOrder(resources.Keys)), forest, resources), MAX_CONFLICTS, q)
  {
    hide Attestors, OwnershipConflicts, ForestConflicts, Lists, NodeContested, CircleFound, Order.Sorted;
    var p := (x: Conflict) => OwnershipContested(resources, x);
    OwnershipLists(resources, KeyOrder(resources.Keys), p);
    ForestLists(OwnershipConflicts(resources, KeyOrder(resources.Keys)), forest, resources, p, q);
  }

  lemma ZonesReport(before: seq<Conflict>, resources: Resources, effects: Effects, p: Conflict -> bool, q: Conflict -> bool)
    requires forall k | k in effects :: k in resources
    requires Lists(before, MAX_CONFLICTS, p) && forall x :: q(x) <==> p(x) || ZoneContested(resources, effects, x)
    ensures Lists(ZoneConflicts(before, resources, effects, KeyOrder(effects.Keys)), MAX_CONFLICTS, q)
  {
    hide Attestors, ZoneConflicts, Lists, Order.Sorted;
    ZoneLists(before, resources, effects, KeyOrder(effects.Keys), p, q);
  }

  lemma MembersReport(before: seq<Conflict>, members: Members, p: Conflict -> bool, q: Conflict -> bool)
    requires Lists(before, MAX_CONFLICTS, p) && forall x :: q(x) <==> p(x) || MemberContested(members, x)
    ensures Lists(MemberConflicts(before, members, DomainOrder(members.Keys)), MAX_CONFLICTS, q)
  {
    hide Parties, MemberConflicts, Lists, Order.Sorted;
    MemberLists(before, members, DomainOrder(members.Keys), p, q);
  }

  lemma ConflictsList(env: Env, admissions: Admissions, e: SiteExpectation)
    ensures var resources := ResourcesOf(env, admissions);
            var forest := ForestOf(admissions, resources);
            var effects, members := EffectsOf(resources, forest.nodes), MembersOf(admissions, e);
            Lists(ConflictsOf(env, admissions, e), MAX_CONFLICTS, x => Contested(resources, forest, effects, members, x))
  {
    hide ResourcesOf, ForestOf, EffectOf, IsZone, MembersOf, KeyOrder, DomainOrder, OwnershipConflicts, ForestConflicts,
      ZoneConflicts, MemberConflicts, Lists, OwnershipContested, NodeContested, CircleFound, ZoneContested, MemberContested;
    var resources := ResourcesOf(env, admissions);
    var forest := ForestOf(admissions, resources);
    var effects, members := EffectsOf(resources, forest.nodes), MembersOf(admissions, e);
    var c2 := ForestConflicts(OwnershipConflicts(resources, KeyOrder(resources.Keys)), forest, resources);
    var p2 := (x: Conflict) => OwnershipContested(resources, x) || CircleFound(forest, x) || NodeContested(forest.nodes, resources, x);
    ResourcesReport(resources, forest, p2);
    var p3 := (x: Conflict) => p2(x) || ZoneContested(resources, effects, x);
    ZonesReport(c2, resources, effects, p2, p3);
    var c3 := ZoneConflicts(c2, resources, effects, KeyOrder(effects.Keys));
    MembersReport(c3, members, p3, x => Contested(resources, forest, effects, members, x));
  }

  // ----- Deficits -------------------------------------------------------------

  /** A failure domain names a parent nobody declares. */
  ghost predicate ParentMissing(resources: Resources, x: Deficit) {
    && x == Deficit(Status.FailureDomainDanglingParent, NO_DOMAIN)
    && exists k | k in resources ::
         k.kind == FailureDomainKind && ParentOf(resources[k]).Some? && DomainKey(ParentOf(resources[k]).value) !in resources
  }

  /** A selected record is of a domain that was revoked or has retired. */
  ghost predicate HasLeft(admissions: Admissions, x: Deficit) {
    exists d | d in admissions ::
      && (admissions[d].lifecycle == RevokedMember || admissions[d].lifecycle == RetiredMember)
      && x == Deficit(admissions[d].status, d)
  }

  /** An expected member is missing, or is not CURRENT and says why. */
  ghost predicate FallsShort(admissions: Admissions, e: SiteExpectation, x: Deficit) {
    exists m | m in e.members ::
      if m.domain !in admissions then x == Deficit(Status.MembershipMissing, m.domain)
      else
        var a := admissions[m.domain];
        a.lifecycle != CurrentMember && x == Deficit(if a.lifecycle == StaleMember then Status.EvidenceStale else a.status, m.domain)
  }

  ghost predicate Lacking(resources: Resources, admissions: Admissions, e: SiteExpectation, x: Deficit) {
    ParentMissing(resources, x) || HasLeft(admissions, x) || FallsShort(admissions, e, x)
  }

  lemma DeficitAdded(before: seq<Deficit>, c: Deficit, p: Deficit -> bool, q: Deficit -> bool)
    requires Lists(before, MAX_DEFICITS, p)
    requires forall x :: q(x) <==> p(x) || x == c
    ensures Lists(AddDeficit(before, c), MAX_DEFICITS, q)
  {
  }

  lemma {:induction false} DanglingLists(resources: Resources, order: seq<ResourceKey>, q: Deficit -> bool)
    requires forall k | k in order :: k in resources
    requires forall x :: q(x) <==>
               (&& x == Deficit(Status.FailureDomainDanglingParent, NO_DOMAIN)
                && exists k | k in order :: k.kind == FailureDomainKind && Dangles(resources, resources[k]))
    ensures Lists(DanglingDeficits(resources, order), MAX_DEFICITS, q)
  {
    hide Dangles, AddDeficit;
    if order != [] {
      var front, k := order[..|order| - 1], order[|order| - 1];
      assert order == front + [k];
      var p := (x: Deficit) => x == Deficit(Status.FailureDomainDanglingParent, NO_DOMAIN)
        && exists j | j in front :: j.kind == FailureDomainKind && Dangles(resources, resources[j]);
      DanglingLists(resources, front, p);
      if k.kind == FailureDomainKind && Dangles(resources, resources[k]) {
        DeficitAdded(DanglingDeficits(resources, front), Deficit(Status.FailureDomainDanglingParent, NO_DOMAIN), p, q);
      }
    }
  }

  lemma {:induction false} DeparturesList(before: seq<Deficit>, admissions: Admissions, order: seq<MemberDomainKey>,
      p: Deficit -> bool, q: Deficit -> bool)
    requires forall d | d in order :: d in admissions
    requires Lists(before, MAX_DEFICITS, p)
    requires forall x :: q(x) <==> p(x) || exists d | d in order ::
               DepartureOf(admissions[d]).Some? && x == Deficit(DepartureOf(admissions[d]).value, d)
    ensures Lists(Membership.Departures(before, admissions, order), MAX_DEFICITS, q)
  {
    hide DepartureOf, AddDeficit;
    if order != [] {
      var front, d := order[..|order| - 1], order[|order| - 1];
      assert order == front + [d];
      var r := (x: Deficit) => p(x) || exists j | j in front ::
        DepartureOf(admissions[j]).Some? && x == Deficit(DepartureOf(admissions[j]).value, j);
      DeparturesList(before, admissions, front, p, r);
      if DepartureOf(admissions[d]).Some? {
        DeficitAdded(Membership.Departures(before, admissions, front), Deficit(DepartureOf(admissions[d]).value, d), r, q);
      }
    }
  }

  /** What is noted of an expected member. */
  function Shortfall(admissions: Admissions, d: MemberDomainKey): Option<Status> {
    if d in admissions then ShortfallOf(admissions[d]) else Some(Status.MembershipMissing)
  }

  lemma {:induction false} ShortfallsList(before: seq<Deficit>, admissions: Admissions, members: seq<ExpectedMember>,
      p: Deficit -> bool, q: Deficit -> bool)
    requires Lists(before, MAX_DEFICITS, p)
    requires forall x :: q(x) <==> p(x) || exists m | m in members ::
               Shortfall(admissions, m.domain).Some? && x == Deficit(Shortfall(admissions, m.domain).value, m.domain)
    ensures Lists(Shortfalls(before, admissions, members), MAX_DEFICITS, q)
  {
    hide ShortfallOf, AddDeficit;
    if members != [] {
      var front, m := members[..|members| - 1], members[|members| - 1];
      assert members == front + [m];
      var r := (x: Deficit) => p(x) || exists j | j in front ::
        Shortfall(admissions, j.domain).Some? && x == Deficit(Shortfall(admissions, j.domain).value, j.domain);
      ShortfallsList(before, admissions, front, p, r);
      if Shortfall(admissions, m.domain).Some? {
        DeficitAdded(Shortfalls(before, admissions, front), Deficit(Shortfall(admissions, m.domain).value, m.domain), r, q);
      }
    }
  }

  /** Whoever was admitted was judged by its selected record. */
  ghost predicate Judged(env: Env, input: CompositionInput, e: SiteExpectation, admissions: Admissions) {
    forall d | d in admissions :: admissions[d] == Admit(env, input, e, admissions[d].record)
  }

  lemma AdmissionsAreJudged(env: Env, input: CompositionInput, e: SiteExpectation)
    ensures Judged(env, input, e, AdmissionsFor(env, input, e))
  {
    hide Best, EvidenceOf, Find, VerdictOf;
  }

  lemma DeparturesAre(env: Env, input: CompositionInput, e: SiteExpectation, a: Admission)
    requires DistinctDomains(e.members) && a == Admit(env, input, e, a.record)
    ensures DepartureOf(a) == if a.lifecycle == RevokedMember || a.lifecycle == RetiredMember then Some(a.status) else None
    ensures ShortfallOf(a) == if a.lifecycle == CurrentMember then None
                              else Some(if a.lifecycle == StaleMember then Status.EvidenceStale else a.status)
  {
    StatusIff(env, input, e, a.record);
    LifecycleOccurs(env, input, e, a.record);
    hide Admit, DistinctDomains, Verified, Compatible, SameGeneration;
  }

  lemma LifecycleOccurs(env: Env, input: CompositionInput, e: SiteExpectation, r: PublicationRecord)
    ensures Admit(env, input, e, r).lifecycle != UnknownLifecycle && Admit(env, input, e, r).lifecycle != AbsentMember
  {
    hide EvidenceOf, Find, Retired;
  }

  lemma DeficitsList(env: Env, input: CompositionInput, e: SiteExpectation, admissions: Admissions)
    requires DistinctDomains(e.members) && Judged(env, input, e, admissions)
    ensures var resources := ResourcesOf(env, admissions);
            Lists(DeficitsOf(env, admissions, e), MAX_DEFICITS, x => Lacking(resources, admissions, e, x))
  {
    hide ResourcesOf, Admit, DistinctDomains, DanglingDeficits, Membership.Departures, Shortfalls, Lists, Order.Sorted,
      DepartureOf, ShortfallOf, ParentOf;
    var resources := ResourcesOf(env, admissions);
    forall d | d in admissions ensures DepartureOf(admissions[d]) ==
        (if admissions[d].lifecycle == RevokedMember || admissions[d].lifecycle == RetiredMember then Some(admissions[d].status) else None)
      ensures ShortfallOf(admissions[d]) == (if admissions[d].lifecycle == CurrentMember then None
        else Some(if admissions[d].lifecycle == StaleMember then Status.EvidenceStale else admissions[d].status))
    {
      DeparturesAre(env, input, e, admissions[d]);
    }
    var p1 := (x: Deficit) => ParentMissing(resources, x);
    DanglingLists(resources, KeyOrder(resources.Keys), p1);
    var p2 := (x: Deficit) => p1(x) || HasLeft(admissions, x);
    var d1, domains := DanglingDeficits(resources, KeyOrder(resources.Keys)), DomainOrder(admissions.Keys);
    DeparturesList(d1, admissions, domains, p1, p2);
    ShortfallsList(Membership.Departures(d1, admissions, domains), admissions, e.members, p2, x => Lacking(resources, admissions, e, x));
  }

  // ----- The site -------------------------------------------------------------

  /** What a composed site reports: within its bounds, every conflict there is and no
      other, and everything that is lacking and nothing else. */
  lemma ReportsIff(env: Env, input: CompositionInput)
    requires Readable(env, input) && ComposeSite(env, input).Success?
    ensures var site, e := ComposeSite(env, input).value, Prepared(input).value;
            var admissions := AdmissionsFor(env, input, e);
            var resources := ResourcesOf(env, admissions);
            && Lists(site.conflicts, MAX_CONFLICTS, x => Contested(resources, site.forest, site.maintenance, site.members, x))
            && Lists(site.deficits, MAX_DEFICITS, x => Lacking(resources, admissions, e, x))
  {
    hide *;
    var e := PreparedFor(env, input);
    var admissions := AdmissionsFor(env, input, e);
    SiteParts(env, input, e, admissions);
    ConflictsList(env, admissions, e);
    AdmissionsAreJudged(env, input, e);
    DeficitsList(env, input, e, admissions);
  }
}
