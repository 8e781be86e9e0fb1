/** Admission: one publication is selected per domain, and what it is worth is
    decided by a fixed precedence of checks. */
module Admission {
  import opened Model
  import Order

  // ----- What a composition is given ----------------------------------------

  /** The parts of the system the composition treats as given: the digest of a
      declaration's content, its structural validation, and the digest of one
      claim. */
  datatype Env = Env(
    digestOf: Declaration -> Digest, validate: Declaration -> Status, claimDigest: Claim -> Digest)

  datatype CompositionInput = CompositionInput(
    site: Text, epoch: u64, generation: u64, incarnation: Incarnation, now: i64,
    expectation: SiteExpectation, publications: seq<PublicationRecord>,
    retirements: seq<RetirementRecord>, revoked: seq<MemberDomainKey>,
    reconstructed: seq<MemberDomainKey>)

  datatype MemberLifecycle =
    | UnknownLifecycle | AbsentMember | ReportedMember | CurrentMember | StaleMember
    | ConflictingMember | IncompatibleMember | RetiredMember | RevokedMember

  datatype Admission = Admission(
    record: PublicationRecord, lifecycle: MemberLifecycle, status: Status,
    evidence: EvidenceState, expected: bool, pinned: bool)

  // ----- The expectation ----------------------------------------------------

  function MemberText(m: ExpectedMember): Text { Order.DomainText(m.domain) }

  predicate SoundMember(m: ExpectedMember) {
    m.domain.Valid() && (m.pinned ==> m.generation != 0 && m.digest != ZERO_DIGEST)
  }

  /** The status of the first member, in list order, that is not sound. */
  function FirstUnsound(members: seq<ExpectedMember>): Option<Status> {
    if members == [] then None
    else if !members[0].domain.Valid() then Some(Status.Malformed)
    else if !SoundMember(members[0]) then Some(Status.Invalid)
    else FirstUnsound(members[1..])
  }

  ghost predicate DistinctDomains(members: seq<ExpectedMember>) {
    forall i, j | 0 <= i < j < |members| :: members[i].domain != members[j].domain
  }

  predicate AdjacentDistinct(members: seq<ExpectedMember>) {
    forall i | 1 <= i < |members| :: members[i - 1].domain != members[i].domain
  }

  function CanonicalExpectation(e: SiteExpectation): Outcome<SiteExpectation> {
    if !ValidIdentifier(e.site) then Failure(Status.Invalid)
    else if !e.schema.Supported() then Failure(Status.SchemaIncompatible)
    else if |e.members| > MAX_EXPECTED_MEMBERS then Failure(Status.LimitExceeded)
    else
      var members := Order.StableSort(e.members, MemberText);
      if !AdjacentDistinct(members) then Failure(Status.Conflicting)
      else
        var unsound := FirstUnsound(members);
        if unsound.Some? then Failure(unsound.value) else Success(e.(members := members))
  }

  lemma SoundMemberIff(m: ExpectedMember)
    ensures SoundMember(m) <==> Named(m.domain) && (m.pinned ==> m.generation != 0 && m.digest != ZERO_DIGEST)
  {
    hide ValidIdentifier;
  }

  lemma {:induction false} NothingUnsound(members: seq<ExpectedMember>)
    ensures FirstUnsound(members).None? <==> forall i | 0 <= i < |members| :: SoundMember(members[i])
  {
    if members != [] {
      NothingUnsound(members[1..]);
      assert members == [members[0]] + members[1..];
    }
  }

  /** In a sorted list, no two neighbours equal means no two equal. */
  lemma SortedDistinct(members: seq<ExpectedMember>)
    requires Order.Ordered(members, MemberText)
    ensures AdjacentDistinct(members) <==> DistinctDomains(members)
    ensures AdjacentDistinct(members) ==> Order.StrictlySorted(members, MemberText)
  {
    Order.KeysAreInjective();
    if AdjacentDistinct(members) {
      forall i, j | 0 <= i < j < |members| ensures Order.Less(MemberText(members[i]), MemberText(members[j])) {
        SortedStep(members, i, j);
      }
      forall i, j | 0 <= i < j < |members| ensures members[i].domain != members[j].domain {
        Order.LessAsymmetric(MemberText(members[i]), MemberText(members[j]));
      }
    }
  }

  lemma {:induction false} SortedStep(members: seq<ExpectedMember>, i: nat, j: nat)
    requires Order.Ordered(members, MemberText) && AdjacentDistinct(members) && i < j < |members|
    ensures Order.Less(MemberText(members[i]), MemberText(members[j]))
    decreases j
  {
    Order.KeysAreInjective();
    Order.LessTotal(MemberText(members[j - 1]), MemberText(members[j]));
    assert members[j - 1].domain != members[j].domain;
    if i < j - 1 {
      SortedStep(members, i, j - 1);
      Order.LessTransitive(MemberText(members[i]), MemberText(members[j - 1]), MemberText(members[j]));
    }
  }

  lemma OrderedWhenSound(e: SiteExpectation)
    ensures CanonicalExpectation(e).Success? <==>
      (&& ValidIdentifier(e.site) && e.schema.Supported() && |e.members| <= MAX_EXPECTED_MEMBERS
       && DistinctDomains(e.members) && forall m | m in e.members :: SoundMember(m))
    ensures CanonicalExpectation(e).Success? ==>
      var c := CanonicalExpectation(e).value;
      && c == e.(members := c.members) && multiset(c.members) == multiset(e.members)
      && Order.StrictlySorted(c.members, MemberText) && DistinctDomains(c.members)
  {
    hide ValidIdentifier, SoundMember, Order.StableSort, FirstUnsound;
    var members := Order.StableSort(e.members, MemberText);
    Order.StableSortSorts(e.members, MemberText);
    SortedDistinct(members);
    NothingUnsound(members);
    Order.SameElements(members, e.members);
    DistinctMeansOnce(members);
    DistinctMeansOnce(e.members);
    SameDomains(members, e.members);
  }

  /** An expectation is accepted exactly when its header is sound, its domains
      are distinct and every member is sound; the accepted list is the given
      one in domain order. */
  lemma CanonicalExpectationIff(e: SiteExpectation)
    ensures CanonicalExpectation(e).Success? <==>
      (&& ValidIdentifier(e.site) && e.schema.major == SCHEMA_MAJOR && e.schema.minor <= SCHEMA_MINOR
       && |e.members| <= MAX_EXPECTED_MEMBERS && DistinctDomains(e.members)
       && forall m | m in e.members :: Named(m.domain) && (m.pinned ==> m.generation != 0 && m.digest != ZERO_DIGEST))
    ensures CanonicalExpectation(e).Success? ==>
      var c := CanonicalExpectation(e).value;
      && c == e.(members := c.members) && multiset(c.members) == multiset(e.members)
      && Order.StrictlySorted(c.members, MemberText) && DistinctDomains(c.members)
  {
    hide CanonicalExpectation, DistinctDomains, SoundMember, Named, ValidIdentifier;
    OrderedWhenSound(e);
    forall m | m in e.members
      ensures SoundMember(m) <==> Named(m.domain) && (m.pinned ==> m.generation != 0 && m.digest != ZERO_DIGEST)
    {
      SoundMemberIff(m);
    }
  }

  function DomainsOf(members: seq<ExpectedMember>): seq<MemberDomainKey> {
    if members == [] then [] else DomainsOf(members[..|members| - 1]) + [members[|members| - 1].domain]
  }

  lemma {:induction false} DomainsAt(members: seq<ExpectedMember>)
    ensures |DomainsOf(members)| == |members|
    ensures forall i | 0 <= i < |members| :: DomainsOf(members)[i] == members[i].domain
  {
    if members != [] { DomainsAt(members[..|members| - 1]); }
  }

  ghost predicate Once(domains: seq<MemberDomainKey>) {
    forall d | d in multiset(domains) :: multiset(domains)[d] == 1
  }

  lemma DistinctMeansOnce(members: seq<ExpectedMember>)
    ensures DistinctDomains(members) <==> Once(DomainsOf(members))
  {
    DomainsAt(members);
    var domains := DomainsOf(members);
    if DistinctDomains(members) {
      forall i, j | 0 <= i < j < |domains| ensures domains[i] != domains[j] {
        assert members[i].domain != members[j].domain;
      }
      OnceIfDistinct(domains);
    }
    if Once(domains) {
      forall i, j | 0 <= i < j < |members| ensures members[i].domain != members[j].domain {
        assert domains == domains[..i] + [domains[i]] + domains[i + 1..];
        assert domains[j] in domains[i + 1..];
        assert domains[i] in multiset(domains);
      }
    }
  }

  lemma {:induction false} OnceIfDistinct(domains: seq<MemberDomainKey>)
    requires forall i, j | 0 <= i < j < |domains| :: domains[i] != domains[j]
    ensures Once(domains)
  {
    if domains != [] {
      var front, last := domains[..|domains| - 1], domains[|domains| - 1];
      OnceIfDistinct(front);
      assert domains == front + [last];
      assert last !in front;
    }
  }

  lemma {:induction false} SameDomains(a: seq<ExpectedMember>, b: seq<ExpectedMember>)
    requires multiset(a) == multiset(b)
    ensures multiset(DomainsOf(a)) == multiset(DomainsOf(b))
    decreases |a|
  {
    Order.SameSize(a, b);
    if a != [] {
      var front, last := a[..|a| - 1], a[|a| - 1];
      assert a == front + [last];
      assert multiset(a) == multiset(front) + multiset{last};
      assert last in multiset(b);
      var i :| 0 <= i < |b| && b[i] == last;
      WithoutOne(b, i);
      Cancel(multiset(front), multiset(b[..i] + b[i + 1..]), last);
      SameDomains(front, b[..i] + b[i + 1..]);
      hide DomainsOf;
      DomainsSnoc(front, last);
    }
  }

  lemma Cancel<T>(a: multiset<T>, b: multiset<T>, x: T)
    requires a + multiset{x} == b + multiset{x}
    ensures a == b
  {
    assert a == a + multiset{x} - multiset{x};
    assert b == b + multiset{x} - multiset{x};
  }

  lemma DomainsSnoc(front: seq<ExpectedMember>, last: ExpectedMember)
    ensures multiset(DomainsOf(front + [last])) == multiset(DomainsOf(front)) + multiset{last.domain}
  {
    assert (front + [last])[..|front|] == front;
  }

  lemma WithoutOne(b: seq<ExpectedMember>, i: nat)
    requires i < |b|
    ensures var rest := b[..i] + b[i + 1..];
            && multiset(b) == multiset(rest) + multiset{b[i]}
            && multiset(DomainsOf(b)) == multiset(DomainsOf(rest)) + multiset{b[i].domain}
  {
    var rest := b[..i] + b[i + 1..];
    var all, left := DomainsOf(b), DomainsOf(rest);
    DomainsAt(b);
    DomainsAt(rest);
    hide DomainsOf;
    assert left == all[..i] + all[i + 1..];
    TakenOut(b, i);
    TakenOut(all, i);
  }

  lemma TakenOut<T>(s: seq<T>, i: nat)
    requires i < |s|
    ensures multiset(s) == multiset(s[..i] + s[i + 1..]) + multiset{s[i]}
  {
    assert s == s[..i] + [s[i]] + s[i + 1..];
  }

  /** The member of a domain, if it is expected. */
  function Find(members: seq<ExpectedMember>, domain: MemberDomainKey): (r: Option<ExpectedMember>)
    ensures r.Some? ==> r.value in members && r.value.domain == domain
    ensures r.None? ==> forall m | m in members :: m.domain != domain
  {
    if members == [] then None
    else if members[0].domain == domain then Some(members[0])
    else
      assert members == [members[0]] + members[1..];
      Find(members[1..], domain)
  }

  // ----- Selection ----------------------------------------------------------

  predicate AttemptAbove(a: PublishAttempt, b: PublishAttempt) {
    a.sequence > b.sequence || (a.sequence == b.sequence && a.attempt > b.attempt)
  }

  /** Higher generation, then higher attempt, then later acceptance. */
  predicate Above(a: PublicationRecord, b: PublicationRecord) {
    || a.generation > b.generation
    || (a.generation == b.generation && AttemptAbove(a.attempt, b.attempt))
    || (a.generation == b.generation && a.attempt == b.attempt && a.acceptance > b.acceptance)
  }

  predicate Eligible(r: PublicationRecord) {
    r.domain.Valid() && r.generation != 0 && r.digest != ZERO_DIGEST
  }

  type Selection = map<MemberDomainKey, PublicationRecord>

  function Consider(best: Selection, r: PublicationRecord): Selection {
    if !Eligible(r) then best
    else if r.domain !in best then best[r.domain := r]
    else if Above(r, best[r.domain]) then best[r.domain := r]
    else best
  }

  /** The selection in arrival order. */
  function Best(publications: seq<PublicationRecord>): Selection {
    if publications == [] then map[]
    else Consider(Best(publications[..|publications| - 1]), publications[|publications| - 1])
  }

  /** What a record is ranked by, the most significant number first. */
  function Rank(r: PublicationRecord): (rank: seq<nat>)
    ensures |rank| == 4
  {
    [r.generation, r.attempt.sequence, r.attempt.attempt, r.acceptance]
  }

  /** Lower at the first number in which they differ. */
  ghost predicate RanksBelow(a: seq<nat>, b: seq<nat>)
    requires |a| == |b|
  {
    exists i :: 0 <= i < |a| && a[i] < b[i] && forall j | 0 <= j < i :: a[j] == b[j]
  }

  lemma AboveIff(a: PublicationRecord, b: PublicationRecord)
    ensures Above(a, b) <==> RanksBelow(Rank(b), Rank(a))
  {
    var x, y := Rank(b), Rank(a);
    assert RanksBelow(x, y) <==>
      x[0] < y[0] || (x[0] == y[0] && x[1] < y[1]) || (x[0] == y[0] && x[1] == y[1] && x[2] < y[2])
      || (x[0] == y[0] && x[1] == y[1] && x[2] == y[2] && x[3] < y[3]) by {
      RanksBelowIff(x, y);
    }
  }

  lemma RanksBelowIff(x: seq<nat>, y: seq<nat>)
    requires |x| == |y| == 4
    ensures RanksBelow(x, y) <==>
      x[0] < y[0] || (x[0] == y[0] && x[1] < y[1]) || (x[0] == y[0] && x[1] == y[1] && x[2] < y[2])
      || (x[0] == y[0] && x[1] == y[1] && x[2] == y[2] && x[3] < y[3])
  {
  }

  /** May be selected at all: a named domain, a generation and a digest. */
  predicate Selectable(r: PublicationRecord) {
    Named(r.domain) && r.generation > 0 && r.digest != ZERO_DIGEST
  }

  /** A record of the domain that no record of the domain outranks. */
  ghost predicate IsTop(r: PublicationRecord, publications: seq<PublicationRecord>, d: MemberDomainKey) {
    && r in publications && Selectable(r) && r.domain == d
    && forall q | q in publications && Selectable(q) && q.domain == d :: !RanksBelow(Rank(r), Rank(q))
  }

  /** The same, by the comparison the selection makes. */
  ghost predicate Unbeaten(r: PublicationRecord, publications: seq<PublicationRecord>, d: MemberDomainKey) {
    && r in publications && Eligible(r) && r.domain == d
    && forall q | q in publications && Eligible(q) && q.domain == d :: !Above(q, r)
  }

  lemma TopIffUnbeaten(publications: seq<PublicationRecord>, d: MemberDomainKey)
    ensures forall r :: IsTop(r, publications, d) <==> Unbeaten(r, publications, d)
    ensures forall r :: Selectable(r) <==> Eligible(r)
  {
    hide RanksBelow, Above, Rank, ValidIdentifier;
    forall a, b ensures Above(a, b) <==> RanksBelow(Rank(b), Rank(a)) { AboveIff(a, b); }
  }

  /** The selected record of a domain is a top record of it, and the first to
      arrive among the top ones; a domain is selected exactly when it has a
      record that may be selected. */
  lemma SelectionIsTheMaximum(publications: seq<PublicationRecord>, d: MemberDomainKey)
    ensures d in Best(publications) <==> exists r :: r in publications && Selectable(r) && r.domain == d
    ensures d in Best(publications) ==> IsTop(Best(publications)[d], publications, d)
    ensures d in Best(publications) ==>
      exists i :: 0 <= i < |publications| && publications[i] == Best(publications)[d]
        && forall j | 0 <= j < i :: !IsTop(publications[j], publications, d)
  {
    hide Best, Selectable, Eligible, IsTop, Unbeaten;
    SelectionIsUnbeaten(publications, d);
    TopIffUnbeaten(publications, d);
  }

  lemma {:induction false} SelectionIsUnbeaten(publications: seq<PublicationRecord>, d: MemberDomainKey)
    ensures d in Best(publications) <==> exists r :: r in publications && Eligible(r) && r.domain == d
    ensures d in Best(publications) ==> Unbeaten(Best(publications)[d], publications, d)
    ensures d in Best(publications) ==>
      exists i :: 0 <= i < |publications| && publications[i] == Best(publications)[d]
        && forall j | 0 <= j < i :: !Unbeaten(publications[j], publications, d)
  {
    if publications != [] {
      var n := |publications| - 1;
      var front, last := publications[..n], publications[n];
      assert publications == front + [last];
      SelectionIsUnbeaten(front, d);
      if d in Best(publications) { FirstUnbeaten(front, last, d); }
    }
  }

  lemma FirstUnbeaten(front: seq<PublicationRecord>, last: PublicationRecord, d: MemberDomainKey)
    requires d in Consider(Best(front), last)
    requires d in Best(front) <==> exists r :: r in front && Eligible(r) && r.domain == d
    requires d in Best(front) ==> Unbeaten(Best(front)[d], front, d)
    requires d in Best(front) ==>
      exists i :: 0 <= i < |front| && front[i] == Best(front)[d] && forall j | 0 <= j < i :: !Unbeaten(front[j], front, d)
    ensures var all := front + [last];
            var b := Consider(Best(front), last)[d];
            && Unbeaten(b, all, d)
            && exists i :: 0 <= i < |all| && all[i] == b && forall j | 0 <= j < i :: !Unbeaten(all[j], all, d)
  {
    hide Best;
    var all := front + [last];
    var b := Consider(Best(front), last)[d];
    if d in Best(front) && b == Best(front)[d] {
      var i :| 0 <= i < |front| && front[i] == b && forall j | 0 <= j < i :: !Unbeaten(front[j], front, d);
      forall j | 0 <= j < i ensures !Unbeaten(all[j], all, d) {
        assert all[j] == front[j];
        assert front[j] in front;
      }
      assert all[i] == b;
    } else {
      assert all[|front|] == b == last;
      forall j | 0 <= j < |front| ensures !Unbeaten(all[j], all, d) {
        assert all[j] == front[j] && front[j] in front && last in all;
      }
    }
  }

  /** The same records, whatever their order and number of repetitions. */
  ghost predicate SameRecords(a: seq<PublicationRecord>, b: seq<PublicationRecord>) {
    forall r :: r in a <==> r in b
  }

  /** No domain has two different top records. */
  ghost predicate NoTopTies(publications: seq<PublicationRecord>) {
    forall a: PublicationRecord, b: PublicationRecord | IsTop(a, publications, a.domain) && IsTop(b, publications, a.domain) :: a == b
  }

  lemma TopIgnoresOrder(r: PublicationRecord, a: seq<PublicationRecord>, b: seq<PublicationRecord>, d: MemberDomainKey)
    requires SameRecords(a, b)
    ensures IsTop(r, a, d) <==> IsTop(r, b, d)
  {
  }

  lemma SelectionIgnoresOrder(a: seq<PublicationRecord>, b: seq<PublicationRecord>)
    requires SameRecords(a, b) && NoTopTies(a)
    ensures Best(a) == Best(b)
  {
    hide Best, IsTop;
    forall d ensures (d in Best(a) <==> d in Best(b)) && (d in Best(a) ==> Best(a)[d] == Best(b)[d]) {
      SelectionIsTheMaximum(a, d);
      SelectionIsTheMaximum(b, d);
      if d in Best(a) {
        TopIgnoresOrder(Best(b)[d], a, b, d);
        TopHasTheDomain(Best(a)[d], a, d);
      }
    }
  }

  lemma TopHasTheDomain(r: PublicationRecord, s: seq<PublicationRecord>, d: MemberDomainKey)
    requires IsTop(r, s, d)
    ensures r.domain == d
  {
  }

  /** Arrival order and repetition are irrelevant to the selection exactly when
      no domain has two different records of the same, highest rank. */
  lemma OrderIrrelevantIff(publications: seq<PublicationRecord>)
    ensures NoTopTies(publications) <==> forall q | SameRecords(publications, q) :: Best(q) == Best(publications)
  {
    hide Best, IsTop;
    if NoTopTies(publications) {
      forall q | SameRecords(publications, q) ensures Best(q) == Best(publications) {
        SelectionIgnoresOrder(publications, q);
      }
    } else {
      var a: PublicationRecord, b: PublicationRecord :| IsTop(a, publications, a.domain) && IsTop(b, publications, a.domain) && a != b;
      FirstComeFirstServed(publications, a);
      TopHasTheDomain(b, publications, a.domain);
      FirstComeFirstServed(publications, b);
      SameWithFront(publications, a);
      SameWithFront(publications, b);
      assert SameRecords(publications, [a] + publications) && SameRecords(publications, [b] + publications);
      assert Best([a] + publications) != Best([b] + publications);
    }
  }

  lemma SameWithFront(s: seq<PublicationRecord>, a: PublicationRecord)
    requires IsTop(a, s, a.domain)
    ensures SameRecords(s, [a] + s)
  {
  }

  /** A top record that arrives first is selected. */
  lemma FirstComeFirstServed(s: seq<PublicationRecord>, a: PublicationRecord)
    requires IsTop(a, s, a.domain)
    ensures a.domain in Best([a] + s) && Best([a] + s)[a.domain] == a
  {
    hide Best;
    var q := [a] + s;
    SelectionIsTheMaximum(q, a.domain);
    hide RanksBelow, Rank;
    assert q[0] == a && a in q && Selectable(a);
    assert IsTop(a, q, a.domain);
    var i :| 0 <= i < |q| && q[i] == Best(q)[a.domain] && forall j | 0 <= j < i :: !IsTop(q[j], q, a.domain);
    assert !(0 < i);
  }

  // ----- Admission ----------------------------------------------------------

  function EvidenceStatus(e: EvidenceState): Status {
    match e
    case Fresh => Status.Ok
    case StaleEvidence => Status.EvidenceStale
    case FutureEvidence => Status.EvidenceFuture
    case SyntheticOnly => Status.EvidenceSyntheticOnly
    case NeedsRevalidation => Status.EvidenceStale
    case InvalidEvidence => Status.Invalid
    case UnknownEvidence => Status.EvidenceMissing
  }

  /** Lifecycle and status. */
  type Verdict = (MemberLifecycle, Status)

  function EvidenceVerdict(e: EvidenceState): Verdict {
    match e
    case Fresh => (CurrentMember, Status.Current)
    case SyntheticOnly => (ReportedMember, Status.EvidenceSyntheticOnly)
    case NeedsRevalidation => (StaleMember, Status.EvidenceStale)
    case _ => (StaleMember, EvidenceStatus(e))
  }

  /** What an intact, valid declaration is worth. */
  function IntactVerdict(r: PublicationRecord, e: SiteExpectation, reconstructed: bool,
      evidence: EvidenceState): Verdict {
    var expected := Find(e.members, r.domain);
    if expected.Some? && expected.value.pinned && expected.value.generation != r.generation then
      (ConflictingMember, Status.GenerationMismatch)
    else if expected.Some? && expected.value.pinned && expected.value.digest != r.digest then
      (ConflictingMember, Status.DigestMismatchDeclaration)
    else if expected.None? && e.rejectUnexpected then (IncompatibleMember, Status.MembershipUnexpected)
    else if reconstructed then (StaleMember, Status.EvidenceStale)
    else EvidenceVerdict(evidence)
  }

  function EvidenceOf(r: PublicationRecord, now: int): EvidenceState {
    if r.declaration.Some? then r.declaration.value.evidence.Evaluate(now) else UnknownEvidence
  }

  predicate Retired(input: CompositionInput, d: MemberDomainKey) {
    exists i | 0 <= i < |input.retirements| :: input.retirements[i].domain == d
  }

  function VerdictOf(env: Env, input: CompositionInput, e: SiteExpectation, r: PublicationRecord): Verdict {
    if r.domain in input.revoked then (RevokedMember, Status.LeaseRevoked)
    else if Retired(input, r.domain) then (RetiredMember, Status.AlreadyRetired)
    else if r.site != input.site then (IncompatibleMember, Status.SiteMismatch)
    else if !r.schema.Supported() then (IncompatibleMember, Status.SchemaIncompatible)
    else if r.observedEpoch > input.epoch then (IncompatibleMember, Status.EpochMismatch)
    else if r.declaration.None? then (ReportedMember, Status.Partial)
    else if r.declaration.value.digest != r.digest then (ConflictingMember, Status.DigestMismatchDeclaration)
    else if env.digestOf(r.declaration.value) != r.digest then (ConflictingMember, Status.DigestMismatchDeclaration)
    else if !env.validate(r.declaration.value).IsOk() then (IncompatibleMember, env.validate(r.declaration.value))
    else IntactVerdict(r, e, r.domain in input.reconstructed, EvidenceOf(r, input.now))
  }

  function Admit(env: Env, input: CompositionInput, e: SiteExpectation, r: PublicationRecord): (a: Admission)
    ensures a.record == r && a.evidence == EvidenceOf(r, input.now)
  {
    var v := VerdictOf(env, input, e, r);
    var expected := Find(e.members, r.domain);
    Admission(r, v.0, v.1, EvidenceOf(r, input.now), expected.Some?, expected.Some? && expected.value.pinned)
  }

  /** Everything a record must satisfy for its domain to count. */
  ghost predicate Authoritative(env: Env, input: CompositionInput, e: SiteExpectation, r: PublicationRecord) {
    && r.domain !in input.revoked
    && (forall i | 0 <= i < |input.retirements| :: input.retirements[i].domain != r.domain)
    && r.site == input.site && r.schema.major == SCHEMA_MAJOR && r.schema.minor <= SCHEMA_MINOR
    && r.observedEpoch <= input.epoch && r.declaration.Some?
    && r.declaration.value.digest == r.digest == env.digestOf(r.declaration.value)
    && env.validate(r.declaration.value).IsOk()
    && r.domain !in input.reconstructed
    && InTerm(r.declaration.value.evidence, input.now)
    && (e.rejectUnexpected ==> exists m :: m in e.members && m.domain == r.domain)
    && forall m | m in e.members && m.domain == r.domain && m.pinned :: m.generation == r.generation && m.digest == r.digest
  }

  /** A member is CURRENT exactly when its selected record is authoritative. */
  lemma CurrentIff(env: Env, input: CompositionInput, e: SiteExpectation, r: PublicationRecord)
    requires DistinctDomains(e.members)
    ensures Admit(env, input, e, r).lifecycle == CurrentMember <==> Authoritative(env, input, e, r)
  {
    hide DistinctDomains;
    if r.declaration.Some? { EvidenceStateIff(r.declaration.value.evidence, input.now); }
    hide InTerm;
    var expected := Find(e.members, r.domain);
    forall m | m in e.members && m.domain == r.domain ensures expected == Some(m) {
      FindsIt(e.members, m);
    }
  }

  // ----- Every other lifecycle ------------------------------------------------

  /** Neither revoked nor retired. */
  ghost predicate Standing(input: CompositionInput, r: PublicationRecord) {
    r.domain !in input.revoked && forall i | 0 <= i < |input.retirements| :: input.retirements[i].domain != r.domain
  }

  /** Of this site, a schema it reads and an epoch it has reached. */
  predicate Compatible(input: CompositionInput, r: PublicationRecord) {
    && r.site == input.site && r.schema.major == SCHEMA_MAJOR && r.schema.minor <= SCHEMA_MINOR
    && r.observedEpoch <= input.epoch
  }

  /** The retained declaration is the one the record was accepted with. */
  predicate Verified(env: Env, r: PublicationRecord) {
    r.declaration.Some? && r.declaration.value.digest == r.digest == env.digestOf(r.declaration.value)
  }

  ghost predicate SameGeneration(e: SiteExpectation, r: PublicationRecord) {
    forall m | m in e.members && m.domain == r.domain && m.pinned :: m.generation == r.generation
  }

  ghost predicate PinsHold(e: SiteExpectation, r: PublicationRecord) {
    forall m | m in e.members && m.domain == r.domain && m.pinned :: m.generation == r.generation && m.digest == r.digest
  }

  ghost predicate Foreseen(e: SiteExpectation, r: PublicationRecord) {
    e.rejectUnexpected ==> exists m :: m in e.members && m.domain == r.domain
  }

  /** Nothing but its evidence, or its recovery, keeps the record from counting. */
  ghost predicate Accountable(env: Env, input: CompositionInput, e: SiteExpectation, r: PublicationRecord) {
    && Standing(input, r) && Compatible(input, r) && Verified(env, r) && env.validate(r.declaration.value).IsOk()
    && PinsHold(e, r) && Foreseen(e, r)
  }

  predicate SyntheticInTerm(e: Evidence, now: int) { e.provenance == Synthetic && SoundTerm(e) && !Ahead(e, now) }

  /** Every lifecycle an admitted member can have, and when it has it. */
  lemma LifecycleIff(env: Env, input: CompositionInput, e: SiteExpectation, r: PublicationRecord)
    requires DistinctDomains(e.members)
    ensures var l := Admit(env, input, e, r).lifecycle;
            && (l == RevokedMember <==> r.domain in input.revoked)
            && (l == RetiredMember <==> r.domain !in input.revoked && !Standing(input, r))
            && (l == ReportedMember <==>
                 && Standing(input, r) && Compatible(input, r)
                 && (r.declaration.None?
                     || (Accountable(env, input, e, r) && r.domain !in input.reconstructed
                         && SyntheticInTerm(r.declaration.value.evidence, input.now))))
            && (l == IncompatibleMember <==>
                 && Standing(input, r)
                 && (!Compatible(input, r)
                     || (Verified(env, r)
                         && (!env.validate(r.declaration.value).IsOk() || (PinsHold(e, r) && !Foreseen(e, r))))))
            && (l == ConflictingMember <==>
                 && Standing(input, r) && Compatible(input, r) && r.declaration.Some?
                 && (!Verified(env, r) || (env.validate(r.declaration.value).IsOk() && !PinsHold(e, r))))
            && (l == StaleMember <==>
                 && Accountable(env, input, e, r)
                 && (r.domain in input.reconstructed
                     || (!InTerm(r.declaration.value.evidence, input.now)
                         && !SyntheticInTerm(r.declaration.value.evidence, input.now))))
  {
    hide DistinctDomains;
    if r.declaration.Some? { EvidenceStateIff(r.declaration.value.evidence, input.now); }
    hide InTerm, SoundTerm, Ahead, Observed, Find;
    var expected := Find(e.members, r.domain);
    forall m | m in e.members && m.domain == r.domain ensures expected == Some(m) {
      FindsIt(e.members, m);
    }
  }

  /** Of a record intact and valid, the status that goes with its lifecycle. */
  lemma IntactStatus(r: PublicationRecord, e: SiteExpectation, reconstructed: bool, evidence: EvidenceState)
    requires DistinctDomains(e.members)
    ensures var v := IntactVerdict(r, e, reconstructed, evidence);
            && (v.0 == CurrentMember ==> v.1 == Status.Current)
            && (v.0 == ReportedMember ==> v.1 == Status.EvidenceSyntheticOnly)
            && (v.0 == IncompatibleMember ==> v.1 == Status.MembershipUnexpected)
            && (v.0 == ConflictingMember ==>
                  v.1 == if SameGeneration(e, r) then Status.DigestMismatchDeclaration else Status.GenerationMismatch)
            && v.0 in {CurrentMember, ReportedMember, IncompatibleMember, ConflictingMember, StaleMember}
  {
    hide DistinctDomains, EvidenceStatus, Find;
    var expected := Find(e.members, r.domain);
    forall m | m in e.members && m.domain == r.domain ensures expected == Some(m) {
      FindsIt(e.members, m);
    }
  }

  /** The status that goes with a lifecycle. */
  lemma StatusIff(env: Env, input: CompositionInput, e: SiteExpectation, r: PublicationRecord)
    requires DistinctDomains(e.members)
    ensures var a := Admit(env, input, e, r);
            && (a.lifecycle == CurrentMember ==> a.status == Status.Current)
            && (a.lifecycle == RevokedMember ==> a.status == Status.LeaseRevoked)
            && (a.lifecycle == RetiredMember ==> a.status == Status.AlreadyRetired)
            && (a.lifecycle == ReportedMember ==>
                  a.status == if r.declaration.None? then Status.Partial else Status.EvidenceSyntheticOnly)
            && (a.lifecycle == ConflictingMember ==>
                  && a.status in {Status.GenerationMismatch, Status.DigestMismatchDeclaration}
                  && (a.status == Status.GenerationMismatch <==> Verified(env, r) && !SameGeneration(e, r)))
            && (a.lifecycle == IncompatibleMember && !Compatible(input, r) ==>
                  a.status in {Status.SiteMismatch, Status.SchemaIncompatible, Status.EpochMismatch}
                  && (a.status == Status.SiteMismatch <==> r.site != input.site)
                  && (a.status == Status.EpochMismatch ==> r.observedEpoch > input.epoch))
            && (a.lifecycle == IncompatibleMember && Compatible(input, r) ==>
                  a.status == if env.validate(r.declaration.value).IsOk() then Status.MembershipUnexpected
                              else env.validate(r.declaration.value))
  {
    hide DistinctDomains, EvidenceOf, IntactVerdict, SameGeneration, Find;
    IntactStatus(r, e, r.domain in input.reconstructed, EvidenceOf(r, input.now));
  }

  lemma FindsIt(members: seq<ExpectedMember>, m: ExpectedMember)
    requires DistinctDomains(members) && m in members
    ensures Find(members, m.domain) == Some(m)
  {
    hide Find;
    var found := Find(members, m.domain);
    var i :| 0 <= i < |members| && members[i] == m;
    var j :| 0 <= j < |members| && members[j] == found.value;
  }

  type Admissions = map<MemberDomainKey, Admission>

  function AdmitAll(env: Env, input: CompositionInput, e: SiteExpectation, best: Selection): (a: Admissions)
    ensures a.Keys == best.Keys
    ensures forall d | d in best :: a[d] == Admit(env, input, e, best[d])
  {
    map d | d in best :: Admit(env, input, e, best[d])
  }

  // ----- The loops ----------------------------------------------------------

  method SelectBest(publications: seq<PublicationRecord>) returns (best: Selection)
    ensures best == Best(publications)
  {
    best := map[];
    for i := 0 to |publications|
      invariant best == Best(publications[..i])
    {
      assert publications[..i + 1][..i] == publications[..i];
      var r := publications[i];
      if !r.domain.Valid() || r.generation == 0 || r.digest == ZERO_DIGEST { continue; }
      if r.domain !in best {
        best := best[r.domain := r];
        continue;
      }
      var incumbent := best[r.domain];
      var replace := r.generation > incumbent.generation
        || (r.generation == incumbent.generation && AttemptAbove(r.attempt, incumbent.attempt))
        || (r.generation == incumbent.generation && r.attempt == incumbent.attempt
            && r.acceptance > incumbent.acceptance);
      if replace {
        best := best[r.domain := r];
      }
    }
    assert publications[..|publications|] == publications;
  }

  method RetiredDomains(input: CompositionInput) returns (retired: set<MemberDomainKey>)
    ensures forall d :: d in retired <==> Retired(input, d)
  {
    retired := {};
    for i := 0 to |input.retirements|
      invariant forall d :: d in retired <==> exists k | 0 <= k < i :: input.retirements[k].domain == d
    {
      retired := retired + {input.retirements[i].domain};
    }
  }

  /** The precedence of checks for one selected record. */
  method AdmitOne(env: Env, input: CompositionInput, e: SiteExpectation, r: PublicationRecord,
      retired: set<MemberDomainKey>) returns (a: Admission)
    requires forall d :: d in retired <==> Retired(input, d)
    ensures a == Admit(env, input, e, r)
  {
    hide Find;
    var reconstructed := r.domain in input.reconstructed;
    var expected := Find(e.members, r.domain);
    var evidence := if r.declaration.Some? then r.declaration.value.evidence.Evaluate(input.now) else UnknownEvidence;
    var lifecycle, status := UnknownLifecycle, Status.Unknown;
    if r.domain in input.revoked {
      lifecycle, status := RevokedMember, Status.LeaseRevoked;
    } else if r.domain in retired {
      lifecycle, status := RetiredMember, Status.AlreadyRetired;
    } else if r.site != input.site {
      lifecycle, status := IncompatibleMember, Status.SiteMismatch;
    } else if !r.schema.Supported() {
      lifecycle, status := IncompatibleMember, Status.SchemaIncompatible;
    } else if r.observedEpoch > input.epoch {
      lifecycle, status := IncompatibleMember, Status.EpochMismatch;
    } else if r.declaration.None? {
      lifecycle, status := ReportedMember, Status.Partial;
    } else if r.declaration.value.digest != r.digest {
      lifecycle, status := ConflictingMember, Status.DigestMismatchDeclaration;
    } else {
      var recomputed := env.digestOf(r.declaration.value);
      if recomputed != r.digest {
        lifecycle, status := ConflictingMember, Status.DigestMismatchDeclaration;
      } else {
        var declared := env.validate(r.declaration.value);
        if !declared.IsOk() {
          lifecycle, status := IncompatibleMember, declared;
        } else if expected.Some? && expected.value.pinned {
          if expected.value.generation != r.generation {
            lifecycle, status := ConflictingMember, Status.GenerationMismatch;
          } else if expected.value.digest != r.digest {
            lifecycle, status := ConflictingMember, Status.DigestMismatchDeclaration;
          }
        } else if expected.None? && e.rejectUnexpected {
          lifecycle, status := IncompatibleMember, Status.MembershipUnexpected;
        }
        if lifecycle == UnknownLifecycle && reconstructed {
          lifecycle, status := StaleMember, Status.EvidenceStale;
        }
        if lifecycle == UnknownLifecycle {
          match evidence
          case Fresh => lifecycle, status := CurrentMember, Status.Current;
          case SyntheticOnly => lifecycle, status := ReportedMember, Status.EvidenceSyntheticOnly;
          case NeedsRevalidation => lifecycle, status := StaleMember, Status.EvidenceStale;
          case _ => lifecycle, status := StaleMember, EvidenceStatus(evidence);
        }
      }
    }
    a := Admission(r, lifecycle, status, evidence, expected.Some?, expected.Some? && expected.value.pinned);
  }

  method AdmitSelected(env: Env, input: CompositionInput, e: SiteExpectation, best: Selection)
      returns (admissions: Admissions)
    ensures admissions == AdmitAll(env, input, e, best)
  {
    hide *;
    var retired := RetiredDomains(input);
    Order.KeysAreInjective();
    var order := Order.Sorted(best.Keys, Order.DomainText);
    admissions := map[];
    for i := 0 to |order|
      invariant forall d :: d in admissions <==> d in order[..i]
      invariant forall d | d in admissions :: d in best && admissions[d] == Admit(env, input, e, best[d])
    {
      var d := order[i];
      assert order[..i + 1] == order[..i] + [d];
      assert d in order;
      var a := AdmitOne(env, input, e, best[d], retired);
      admissions := admissions[d := a];
    }
    assert order[..|order|] == order;
  }
}
