/** Membership and the site lifecycle: who is missing, who disagrees, and the one
    verdict that follows by a fixed precedence. */
module Membership {
  import opened Model
  import opened Admission
  import opened Attribution
  import opened FailureDomains
  import opened Verdicts

  datatype MemberState = MemberState(
    lifecycle: MemberLifecycle, status: Status, evidence: EvidenceState, expected: bool, pinned: bool,
    source: Option<SourceRef>)

  type Members = map<MemberDomainKey, MemberState>

  function AdmittedState(a: Admission): MemberState {
    MemberState(a.lifecycle, a.status, a.evidence, a.expected, a.pinned, Some(a.record.Source()))
  }

  function AbsentState(m: ExpectedMember): MemberState {
    MemberState(AbsentMember, Status.MembershipMissing, UnknownEvidence, true, m.pinned, None)
  }

  function ExpectedDomains(members: seq<ExpectedMember>): set<MemberDomainKey> { set m | m in members :: m.domain }

  /** Every admitted domain in the state of its admission, and every expected
      domain that never reported as absent. */
  function MembersOf(admissions: Admissions, e: SiteExpectation): (r: Members)
    ensures r.Keys == admissions.Keys + ExpectedDomains(e.members)
    ensures forall d | d in admissions :: r[d] == AdmittedState(admissions[d])
    ensures forall d | d in r && d !in admissions ::
      (r[d].lifecycle == AbsentMember && Find(e.members, d).Some? && r[d] == AbsentState(Find(e.members, d).value))
  {
    map d | d in admissions.Keys + ExpectedDomains(e.members) ::
      if d in admissions then AdmittedState(admissions[d])
      else AbsentState(Find(e.members, d).value)
  }

  // ----- Deficits -----------------------------------------------------------

  function DepartureOf(a: Admission): Option<Status> {
    if a.lifecycle == RevokedMember then Some(Status.LeaseRevoked)
    else if a.lifecycle == RetiredMember then Some(Status.AlreadyRetired)
    else None
  }

  function ShortfallOf(a: Admission): Option<Status> {
    match a.lifecycle
    case CurrentMember => None
    case ReportedMember => Some(a.status)
    case StaleMember => Some(Status.EvidenceStale)
    case ConflictingMember => Some(a.status)
    case IncompatibleMember => Some(a.status)
    case RetiredMember => Some(Status.AlreadyRetired)
    case RevokedMember => Some(Status.LeaseRevoked)
    case _ => Some(Status.Unknown)
  }

  function Noted(deficits: seq<Deficit>, code: Option<Status>, d: MemberDomainKey): seq<Deficit> {
    if code.Some? then AddDeficit(deficits, Deficit(code.value, d)) else deficits
  }

  function Departures(before: seq<Deficit>, admissions: Admissions, order: seq<MemberDomainKey>): seq<Deficit>
    requires forall d | d in order :: d in admissions
  {
    if order == [] then before
    else
      var front, d := order[..|order| - 1], order[|order| - 1];
      assert order == front + [d];
      Noted(Departures(before, admissions, front), DepartureOf(admissions[d]), d)
  }

  function Shortfalls(before: seq<Deficit>, admissions: Admissions, members: seq<ExpectedMember>): seq<Deficit> {
    if members == [] then before
    else
      var d := members[|members| - 1].domain;
      Noted(Shortfalls(before, admissions, members[..|members| - 1]),
            if d in admissions then ShortfallOf(admissions[d]) else Some(Status.MembershipMissing), d)
  }

  function MembershipDeficits(before: seq<Deficit>, admissions: Admissions, e: SiteExpectation): seq<Deficit> {
    Shortfalls(Departures(before, admissions, DomainOrder(admissions.Keys)), admissions, e.members)
  }

  // ----- Completeness and conflicts -----------------------------------------

  predicate Present(members: Members, d: MemberDomainKey) { d in members && members[d].lifecycle == CurrentMember }

  predicate MembershipComplete(members: Members, e: SiteExpectation) {
    e.members != [] && forall i | 0 <= i < |e.members| :: e.members[i].required ==> Present(members, e.members[i].domain)
  }

  predicate AllFresh(members: Members) { forall d | d in members :: members[d].evidence == Fresh }

  predicate ValidSource(s: SourceRef) { s.domain.Valid() && s.generation != 0 && s.digest != ZERO_DIGEST }

  function Parties(s: Option<SourceRef>): set<SourceRef> {
    if s.Some? && ValidSource(s.value) then {s.value} else {}
  }

  /** A member whose declaration conflicts is a conflict of the site. */
  function MemberConflicts(before: seq<Conflict>, members: Members, order: seq<MemberDomainKey>): (r: seq<Conflict>)
    requires forall d | d in order :: d in members
    ensures before <= r
    ensures r == [] ==> before == [] && forall d | d in order :: members[d].lifecycle != ConflictingMember
  {
    if order == [] then before
    else
      var front, d := order[..|order| - 1], order[|order| - 1];
      assert order == front + [d];
      var c := MemberConflicts(before, members, front);
      if members[d].lifecycle == ConflictingMember then
        AddConflict(c, Conflict(members[d].status, NO_SUBJECT, Parties(members[d].source)))
      else c
  }

  // ----- Lifecycle ----------------------------------------------------------

  datatype SiteLifecycle =
    ConflictingSite | PartitionedSite | IncompleteSite | IndeterminateSite | DegradedSite | CurrentSite

  predicate AnyRequiredMissing(members: Members, e: SiteExpectation) { !MembershipComplete(members, e) }

  /** Every member is CURRENT or absent, and every required one is absent. */
  predicate AllRequiredAbsent(members: Members, e: SiteExpectation) {
    && e.members != []
    && (forall d | d in members :: members[d].lifecycle == CurrentMember || members[d].lifecycle == AbsentMember)
    && (forall i | 0 <= i < |e.members| :: e.members[i].required ==>
          e.members[i].domain !in members || members[e.members[i].domain].lifecycle == AbsentMember)
  }

  predicate AnyNonAuthoritative(members: Members) { exists d | d in members :: members[d].lifecycle != CurrentMember }

  predicate SomeVerdict(verdicts: Obligations,
      status: Status) { exists k | k in verdicts :: verdicts[k].status == status }

  /** What the lifecycle is decided from. */
  datatype Findings = Findings(
    conflict: bool, allRequiredAbsent: bool, anyRequiredMissing: bool, indeterminate: bool, degraded: bool)

  function ForestIndeterminate(f: SiteForest): bool {
    f.status == Status.FailureDomainDanglingParent || f.status == Status.NoAuthoritativeSource || f.cyclic != {}
  }

  function FindingsOf(members: Members, e: SiteExpectation, conflicts: seq<Conflict>, capacity: Status,
      forest: SiteForest,
      connectivity: ConnectivitySummary, verdicts: Obligations, maintenanceUnknown: bool): Findings
  {
    Findings(
      conflicts != [],
      AllRequiredAbsent(members, e),
      AnyRequiredMissing(members, e),
      capacity == Status.CapacityUnknown || ForestIndeterminate(forest)
        || connectivity.status == Status.ConnectivityUnknown
        || SomeVerdict(verdicts, Status.ObligationIndeterminate) || AnyNonAuthoritative(members) || maintenanceUnknown,
      SomeVerdict(verdicts, Status.ObligationViolated)
        || connectivity.links.down != 0 || connectivity.gateways.down != 0
        || connectivity.links.degraded != 0 || connectivity.gateways.degraded != 0)
  }

  function LifecycleOf(f: Findings): SiteLifecycle {
    if f.conflict then ConflictingSite
    else if f.allRequiredAbsent then PartitionedSite
    else if f.anyRequiredMissing then IncompleteSite
    else if f.indeterminate then IndeterminateSite
    else if f.degraded then DegradedSite
    else CurrentSite
  }

  function SiteStatus(l: SiteLifecycle): Status {
    match l
    case CurrentSite => Status.Current
    case DegradedSite => Status.Degraded
    case PartitionedSite => Status.Partitioned
    case IncompleteSite => Status.Incomplete
    case ConflictingSite => Status.Conflicting
    case IndeterminateSite => Status.Indeterminate
  }

  /** A complete membership of CURRENT members has a required one unless it is
      reported as partitioned. */
  lemma SomeRequired(members: Members, e: SiteExpectation)
    requires MembershipComplete(members, e) && !AllRequiredAbsent(members, e) && !AnyNonAuthoritative(members)
    ensures exists m :: m in e.members && m.required && Present(members, m.domain)
  {
    var i :| 0 <= i < |e.members| && e.members[i].required;
    assert e.members[i] in e.members;
  }

  /** An expectation without a required member is never CURRENT: when all its
      members are, the site is reported as partitioned. */
  lemma AllOptionalIsPartitioned(members: Members, e: SiteExpectation)
    requires e.members != [] && (forall m | m in e.members :: !m.required)
    requires forall d | d in members :: members[d].lifecycle == CurrentMember
    ensures AllRequiredAbsent(members, e)
  {
    forall i | 0 <= i < |e.members| ensures !e.members[i].required { assert e.members[i] in e.members; }
  }

  // ----- The loops ----------------------------------------------------------

  lemma DomainStep(order: seq<MemberDomainKey>, i: nat)
    requires i < |order|
    ensures order[i] in order
    ensures order[..i + 1] == order[..i] + [order[i]]
    ensures order[..i + 1][..i] == order[..i]
    ensures forall d :: d in order[..i + 1] <==> d in order[..i] || d == order[i]
  {
  }

  /** Every value visited so far passes. */
  predicate AllIn<K(==), V>(m: map<K, V>, order: seq<K>, p: V -> bool) {
    forall i | 0 <= i < |order| :: order[i] in m ==> p(m[order[i]])
  }

  lemma AllInStep<K, V>(m: map<K, V>, order: seq<K>, i: nat, p: V -> bool)
    requires i < |order| && order[i] in m
    ensures AllIn(m, order[..i + 1], p) <==> AllIn(m, order[..i], p) && p(m[order[i]])
    ensures AllIn(m, order[..0], p)
  {
    var front, now := order[..i], order[..i + 1];
    if AllIn(m, now, p) {
      forall j | 0 <= j < |front| ensures front[j] in m ==> p(m[front[j]]) { assert now[j] == front[j]; }
      assert now[i] == order[i];
    }
  }

  lemma AllInWhole<K, V>(m: map<K, V>, order: seq<K>, p: V -> bool)
    requires forall k :: k in order <==> k in m
    ensures AllIn(m, order, p) <==> forall k | k in m :: p(m[k])
  {
    if AllIn(m, order, p) {
      forall k | k in m ensures p(m[k]) {
        assert k in order;
        var i :| 0 <= i < |order| && order[i] == k;
      }
    }
  }

  lemma NoDepartures(before: seq<Deficit>, admissions: Admissions)
    ensures Departures(before, admissions, []) == before
  {
  }

  lemma DeparturesStep(before: seq<Deficit>, admissions: Admissions, order: seq<MemberDomainKey>, i: nat)
    requires i < |order| && forall d | d in order :: d in admissions
    ensures order[i] in admissions && forall d | d in order[..i + 1] :: d in admissions
    ensures Departures(before, admissions, order[..i + 1])
      == Noted(Departures(before, admissions, order[..i]), DepartureOf(admissions[order[i]]), order[i])
  {
    hide Noted, DepartureOf;
    DomainStep(order, i);
  }

  method NoteDepartures(before: seq<Deficit>, admissions: Admissions) returns (deficits: seq<Deficit>)
    ensures deficits == Departures(before, admissions, DomainOrder(admissions.Keys))
  {
    hide *;
    var order := DomainOrder(admissions.Keys);
    deficits := before;
    NoDepartures(before, admissions);
    for i := 0 to |order|
      invariant forall d | d in order[..i] :: d in admissions
      invariant deficits == Departures(before, admissions, order[..i])
    {
      DeparturesStep(before, admissions, order, i);
      deficits := NoteDeparture(deficits, admissions[order[i]], order[i]);
    }
    assert order[..|order|] == order;
  }

  method NoteDeparture(before: seq<Deficit>, a: Admission, d: MemberDomainKey) returns (deficits: seq<Deficit>)
    ensures deficits == Noted(before, DepartureOf(a), d)
  {
    deficits := before;
    if a.lifecycle == RevokedMember {
      deficits := AddDeficit(deficits, Deficit(Status.LeaseRevoked, d));
    } else if a.lifecycle == RetiredMember {
      deficits := AddDeficit(deficits, Deficit(Status.AlreadyRetired, d));
    }
  }

  /** The admitted members and the absent ones among the first `n` expected. */
  ghost predicate Lists(members: Members, admissions: Admissions, e: SiteExpectation, n: nat)
    requires n <= |e.members|
  {
    && members.Keys == admissions.Keys + ExpectedDomains(e.members[..n])
    && (forall d | d in admissions :: members[d] == AdmittedState(admissions[d]))
    && (forall d | d in members && d !in admissions ::
          Find(e.members, d).Some? && members[d] == AbsentState(Find(e.members, d).value))
  }

  lemma ListsMore(members: Members, admissions: Admissions, e: SiteExpectation, n: nat)
    requires n < |e.members| && DistinctDomains(e.members) && Lists(members, admissions, e, n)
    ensures var m := e.members[n];
            Lists(if m.domain in admissions then members else members[m.domain := AbsentState(m)], admissions, e, n + 1)
  {
    hide Find, DistinctDomains;
    var m := e.members[n];
    FindsIt(e.members, m);
    assert e.members[..n + 1] == e.members[..n] + [m];
    assert ExpectedDomains(e.members[..n + 1]) == ExpectedDomains(e.members[..n]) + {m.domain};
  }

  lemma ListsAll(members: Members, admissions: Admissions, e: SiteExpectation)
    requires Lists(members, admissions, e, |e.members|)
    ensures members == MembersOf(admissions, e)
  {
    hide Find;
    assert e.members[..|e.members|] == e.members;
  }

  lemma ShortfallsStep(before: seq<Deficit>, admissions: Admissions, members: seq<ExpectedMember>, i: nat)
    requires i < |members|
    ensures var d := members[i].domain;
            Shortfalls(before, admissions, members[..i + 1])
              == Noted(Shortfalls(before, admissions, members[..i]),
                       if d in admissions then ShortfallOf(admissions[d]) else Some(Status.MembershipMissing), d)
  {
    hide Noted, ShortfallOf;
    assert members[..i + 1][..i] == members[..i];
  }

  /** Adds the absent members and what each expected member falls short of. */
  method CheckExpected(before: seq<Deficit>, reported: Members, admissions: Admissions, e: SiteExpectation)
      returns (members: Members, deficits: seq<Deficit>)
    requires DistinctDomains(e.members)
    requires Lists(reported, admissions, e, 0)
    ensures members == MembersOf(admissions, e)
    ensures deficits == Shortfalls(before, admissions, e.members)
  {
    hide Lists, Shortfalls, ShortfallOf, DistinctDomains, AddDeficit;
    members, deficits := reported, before;
    NoShortfalls(before, admissions);
    for i := 0 to |e.members|
      invariant deficits == Shortfalls(before, admissions, e.members[..i])
      invariant Lists(members, admissions, e, i)
    {
      var m := e.members[i];
      ShortfallsStep(before, admissions, e.members, i);
      ListsMore(members, admissions, e, i);
      if m.domain !in admissions {
        members := members[m.domain := AbsentState(m)];
        deficits := AddDeficit(deficits, Deficit(Status.MembershipMissing, m.domain));
        continue;
      }
      var shortfall := ShortfallOf(admissions[m.domain]);
      if shortfall.Some? { deficits := AddDeficit(deficits, Deficit(shortfall.value, m.domain)); }
    }
    assert e.members[..|e.members|] == e.members;
    ListsAll(members, admissions, e);
  }

  lemma NoShortfalls(before: seq<Deficit>, admissions: Admissions)
    ensures Shortfalls(before, admissions, []) == before
  {
  }

  method ReportAdmitted(admissions: Admissions) returns (members: Members)
    ensures members.Keys == admissions.Keys && forall d | d in admissions :: members[d] == AdmittedState(admissions[d])
  {
    members := map d | d in admissions :: AdmittedState(admissions[d]);
  }

  lemma ListsNone(members: Members, admissions: Admissions, e: SiteExpectation)
    requires members.Keys == admissions.Keys && forall d | d in admissions :: members[d] == AdmittedState(admissions[d])
    ensures Lists(members, admissions, e, 0)
  {
    assert ExpectedDomains(e.members[..0]) == {};
  }

  method CheckComplete(members: Members, e: SiteExpectation) returns (complete: bool)
    ensures complete == MembershipComplete(members, e)
  {
    complete := e.members != [];
    for i := 0 to |e.members|
      invariant complete <==> e.members != [] && forall k | 0 <= k < i :: e.members[k].required ==> Present(members, e.members[k].domain)
    {
      if !e.members[i].required { continue; }
      if !Present(members, e.members[i].domain) { complete := false; }
    }
  }

  lemma NoConflicts(before: seq<Conflict>, members: Members)
    ensures MemberConflicts(before, members, []) == before
  {
  }

  function WithConflict(before: seq<Conflict>, m: MemberState): seq<Conflict> {
    if m.lifecycle == ConflictingMember then AddConflict(before, Conflict(m.status, NO_SUBJECT, Parties(m.source))) else before
  }

  lemma ConflictsStep(before: seq<Conflict>, members: Members, order: seq<MemberDomainKey>, i: nat)
    requires i < |order| && forall d | d in order :: d in members
    ensures order[i] in members && forall d | d in order[..i + 1] :: d in members
    ensures MemberConflicts(before, members, order[..i + 1])
      == WithConflict(MemberConflicts(before, members, order[..i]), members[order[i]])
  {
    hide AddConflict, Parties;
    DomainStep(order, i);
  }

  predicate IsFresh(m: MemberState) { m.evidence == Fresh }

  method NoteConflicts(before: seq<Conflict>, members: Members) returns (conflicts: seq<Conflict>, allFresh: bool)
    ensures conflicts == MemberConflicts(before, members, DomainOrder(members.Keys))
    ensures allFresh == AllFresh(members)
  {
    hide AddConflict, Parties, MemberConflicts, AllIn;
    var order := DomainOrder(members.Keys);
    conflicts, allFresh := before, true;
    NoConflicts(before, members);
    for i := 0 to |order|
      invariant forall d | d in order[..i] :: d in members
      invariant conflicts == MemberConflicts(before, members, order[..i])
      invariant allFresh <==> i == 0 || AllIn(members, order[..i], IsFresh)
    {
      ConflictsStep(before, members, order, i);
      AllInStep(members, order, i, IsFresh);
      var m := members[order[i]];
      if m.evidence != Fresh { allFresh := false; }
      if m.lifecycle != ConflictingMember { continue; }
      conflicts := AddConflict(conflicts, Conflict(m.status, NO_SUBJECT, Parties(m.source)));
    }
    assert order[..|order|] == order;
    AllInWhole(members, order, IsFresh);
  }

  method BuildMembership(admissions: Admissions, e: SiteExpectation, conflictsBefore: seq<Conflict>,
      deficitsBefore: seq<Deficit>)
      returns (members: Members, complete: bool, allFresh: bool, conflicts: seq<Conflict>, deficits: seq<Deficit>)
    requires DistinctDomains(e.members)
    ensures members == MembersOf(admissions, e)
    ensures complete == MembershipComplete(members, e) && allFresh == AllFresh(members)
    ensures conflicts == MemberConflicts(conflictsBefore, members, DomainOrder(members.Keys))
    ensures deficits == MembershipDeficits(deficitsBefore, admissions, e)
  {
    hide DistinctDomains, Departures, Shortfalls, MembershipComplete, AllFresh, MemberConflicts;
    deficits := NoteDepartures(deficitsBefore, admissions);
    members := ReportAdmitted(admissions);
    ListsNone(members, admissions, e);
    members, deficits := CheckExpected(deficits, members, admissions, e);
    complete := CheckComplete(members, e);
    conflicts, allFresh := NoteConflicts(conflictsBefore, members);
  }

  predicate IsCurrent(m: MemberState) { m.lifecycle == CurrentMember }

  predicate IsCurrentOrAbsent(m: MemberState) { m.lifecycle == CurrentMember || m.lifecycle == AbsentMember }

  method ScanStates(members: Members) returns (allCurrent: bool, allCurrentOrAbsent: bool)
    ensures allCurrent <==> forall d | d in members :: IsCurrent(members[d])
    ensures allCurrentOrAbsent <==> forall d | d in members :: IsCurrentOrAbsent(members[d])
  {
    hide AllIn;
    var order := DomainOrder(members.Keys);
    allCurrent, allCurrentOrAbsent := true, true;
    for i := 0 to |order|
      invariant allCurrent <==> i == 0 || AllIn(members, order[..i], IsCurrent)
      invariant allCurrentOrAbsent <==> i == 0 || AllIn(members, order[..i], IsCurrentOrAbsent)
    {
      assert order[i] in order;
      AllInStep(members, order, i, IsCurrent);
      AllInStep(members, order, i, IsCurrentOrAbsent);
      var m := members[order[i]];
      if m.lifecycle != CurrentMember {
        allCurrent := false;
        if m.lifecycle != AbsentMember { allCurrentOrAbsent := false; }
      }
    }
    assert order[..|order|] == order;
    AllInWhole(members, order, IsCurrent);
    AllInWhole(members, order, IsCurrentOrAbsent);
  }

  /** One pass over the members and one over the expectation, as flags. */
  method ScanMembers(members: Members, e: SiteExpectation)
      returns (anyRequiredMissing: bool, allRequiredAbsent: bool, anyNonAuthoritative: bool)
    ensures anyRequiredMissing == AnyRequiredMissing(members, e)
    ensures allRequiredAbsent == AllRequiredAbsent(members, e)
    ensures anyNonAuthoritative == AnyNonAuthoritative(members)
  {
    var allCurrent, allCurrentOrAbsent := ScanStates(members);
    anyNonAuthoritative := !allCurrent;
    var missing, absent := ScanExpected(members, e);
    anyRequiredMissing := missing || e.members == [];
    allRequiredAbsent := allCurrentOrAbsent && absent && e.members != [];
  }

  method ScanExpected(members: Members, e: SiteExpectation) returns (missing: bool, absent: bool)
    ensures missing <==> exists i | 0 <= i < |e.members| :: e.members[i].required && !Present(members, e.members[i].domain)
    ensures absent <==> forall i | 0 <= i < |e.members| :: e.members[i].required ==>
      e.members[i].domain !in members || members[e.members[i].domain].lifecycle == AbsentMember
  {
    missing, absent := false, true;
    for i := 0 to |e.members|
      invariant missing <==> exists k | 0 <= k < i :: e.members[k].required && !Present(members, e.members[k].domain)
      invariant absent <==> forall k | 0 <= k < i :: e.members[k].required ==>
        e.members[k].domain !in members || members[e.members[k].domain].lifecycle == AbsentMember
    {
      var m := e.members[i];
      if !m.required { continue; }
      if m.domain !in members || members[m.domain].lifecycle != CurrentMember {
        missing := true;
        if m.domain in members && members[m.domain].lifecycle != AbsentMember { absent := false; }
      } else {
        absent := false;
      }
    }
  }

  method BuildLifecycle(members: Members, e: SiteExpectation, conflicts: seq<Conflict>, capacity: Status,
      forest: SiteForest,
      connectivity: ConnectivitySummary, verdicts: Obligations, maintenanceUnknown: bool)
      returns (lifecycle: SiteLifecycle, status: Status)
    ensures lifecycle == LifecycleOf(FindingsOf(members, e, conflicts, capacity, forest, connectivity, verdicts, maintenanceUnknown))
    ensures status == SiteStatus(lifecycle)
  {
    hide *;
    var anyRequiredMissing, allRequiredAbsent, anyNonAuthoritative := ScanMembers(members, e);
    var violated, unsure := ScanVerdicts(verdicts);
    var indeterminate := capacity == Status.CapacityUnknown || ForestIndeterminate(forest)
      || connectivity.status == Status.ConnectivityUnknown || unsure || anyNonAuthoritative || maintenanceUnknown;
    var degraded := violated || connectivity.links.down != 0 || connectivity.gateways.down != 0
      || connectivity.links.degraded != 0 || connectivity.gateways.degraded != 0;
    var f := Findings(conflicts != [], allRequiredAbsent, anyRequiredMissing, indeterminate, degraded);
    FindingsAre(members, e, conflicts, capacity, forest, connectivity, verdicts, maintenanceUnknown);
    lifecycle := ByPrecedence(f);
    status := SiteStatus(lifecycle);
  }

  lemma FindingsAre(members: Members, e: SiteExpectation, conflicts: seq<Conflict>, capacity: Status,
      forest: SiteForest,
      connectivity: ConnectivitySummary, verdicts: Obligations, maintenanceUnknown: bool)
    ensures FindingsOf(members, e, conflicts, capacity, forest, connectivity, verdicts, maintenanceUnknown) == Findings(
      conflicts != [], AllRequiredAbsent(members, e), AnyRequiredMissing(members, e),
      capacity == Status.CapacityUnknown || ForestIndeterminate(forest) || connectivity.status == Status.ConnectivityUnknown
        || SomeVerdict(verdicts, Status.ObligationIndeterminate) || AnyNonAuthoritative(members) || maintenanceUnknown,
      SomeVerdict(verdicts, Status.ObligationViolated) || connectivity.links.down != 0 || connectivity.gateways.down != 0
        || connectivity.links.degraded != 0 || connectivity.gateways.degraded != 0)
  {
  }

  method ByPrecedence(f: Findings) returns (lifecycle: SiteLifecycle)
    ensures lifecycle == LifecycleOf(f)
  {
    if f.conflict { lifecycle := ConflictingSite; }
    else if f.allRequiredAbsent { lifecycle := PartitionedSite; }
    else if f.anyRequiredMissing { lifecycle := IncompleteSite; }
    else if f.indeterminate { lifecycle := IndeterminateSite; }
    else if f.degraded { lifecycle := DegradedSite; }
    else { lifecycle := CurrentSite; }
  }

  predicate NotViolated(v: ObligationVerdict) { v.status != Status.ObligationViolated }

  predicate NotUnsure(v: ObligationVerdict) { v.status != Status.ObligationIndeterminate }

  method ScanVerdicts(verdicts: Obligations) returns (violated: bool, unsure: bool)
    ensures violated == SomeVerdict(verdicts, Status.ObligationViolated)
    ensures unsure == SomeVerdict(verdicts, Status.ObligationIndeterminate)
  {
    hide AllIn;
    var order := KeyOrder(verdicts.Keys);
    violated, unsure := false, false;
    for i := 0 to |order|
      invariant !violated <==> i == 0 || AllIn(verdicts, order[..i], NotViolated)
      invariant !unsure <==> i == 0 || AllIn(verdicts, order[..i], NotUnsure)
    {
      assert order[i] in order;
      AllInStep(verdicts, order, i, NotViolated);
      AllInStep(verdicts, order, i, NotUnsure);
      if verdicts[order[i]].status == Status.ObligationViolated { violated := true; }
      else if verdicts[order[i]].status == Status.ObligationIndeterminate { unsure := true; }
    }
    assert order[..|order|] == order;
    AllInWhole(verdicts, order, NotViolated);
    AllInWhole(verdicts, order, NotUnsure);
  }
}
