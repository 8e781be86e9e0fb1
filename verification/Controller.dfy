/** The controller as a machine of atomic steps: hello, publish, retire, revoke,
    the end of a session, recomposition, and recovery at start. */
module Controller {
  import opened Model
  import opened RecordCodec
  import opened Attribution
  import opened Admission
  import opened Membership
  import opened Decisions
  import opened Compose
  import opened Chain
  import opened Authority
  import opened Seal
  import Compaction
  import Fencing
  import Order

  datatype ControllerConfig = ControllerConfig(
    id: Text, site: Text, expectation: SiteExpectation, leaseTtl: i64, retainDeclarations: bool,
    composeOnPublish: bool, snapshotHistory: u32)

  /** The hash everything is digested with, the validation and claim digests the
      composition uses, and the digests of the chain. */
  datatype World = World(hash: Bytes -> Digest, env: Env, chain: ChainEnv)

  datatype ControllerState = ControllerState(
    epoch: u64, incarnation: Incarnation, siteGeneration: u64, sites: Sites, members: Fencing.Members,
    publications: map<MemberDomainKey, PublicationRecord>, retirements: seq<RetirementRecord>,
    revoked: seq<MemberDomainKey>, reconstructed: seq<MemberDomainKey>, acceptance: u64, history: seq<Snapshot>)

  // ----- Small lists --------------------------------------------------------

  function Removed(s: seq<MemberDomainKey>, d: MemberDomainKey): (r: seq<MemberDomainKey>)
    ensures forall x :: x in r <==> x in s && x != d
  {
    if s == [] then []
    else
      assert s == s[..|s| - 1] + [s[|s| - 1]];
      if s[|s| - 1] == d then Removed(s[..|s| - 1], d) else Removed(s[..|s| - 1], d) + [s[|s| - 1]]
  }

  function Added(s: seq<MemberDomainKey>, d: MemberDomainKey): (r: seq<MemberDomainKey>)
    ensures forall x :: x in r <==> x in s || x == d
    ensures |r| == |s| + if d in s then 0 else 1
  {
    if d in s then s else s + [d]
  }

  // ----- What is composed ---------------------------------------------------

  function PublicationList(publications: map<MemberDomainKey, PublicationRecord>): (r: seq<PublicationRecord>)
    ensures |r| == |publications|
    ensures forall x :: x in r <==> exists d :: d in publications && publications[d] == x
  {
    var order := DomainOrder(publications.Keys);
    Compaction.InOrderAt(publications, order);
    ListedAt(publications, order);
    Compaction.InDomainOrder(publications, order)
  }

  lemma ListedAt(publications: map<MemberDomainKey, PublicationRecord>, order: seq<MemberDomainKey>)
    requires forall d :: d in order <==> d in publications
    ensures forall x :: x in Compaction.InDomainOrder(publications, order) <==> exists d :: d in publications && publications[d] == x
  {
    var listed := Compaction.InDomainOrder(publications, order);
    Compaction.InOrderAt(publications, order);
    forall x ensures x in listed <==> exists d :: d in publications && publications[d] == x {
      if x in listed {
        var i :| 0 <= i < |listed| && listed[i] == x;
        assert order[i] in order;
      }
      if d :| d in publications && publications[d] == x {
        assert d in order;
        var i :| 0 <= i < |order| && order[i] == d;
        assert listed[i] == x;
      }
    }
  }

  function InputOf(config: ControllerConfig, st: ControllerState, now: i64): CompositionInput {
    CompositionInput(config.site, st.epoch, Saturating(st.siteGeneration), st.incarnation, now, config.expectation,
                     PublicationList(st.publications), st.retirements, st.revoked, st.reconstructed)
  }

  /** No registered publication has a pool alone under the key of a link or a gateway. */
  ghost predicate Tame(st: ControllerState) {
    forall d | d in st.publications :: TameRecord(st.publications[d])
  }

  /** Whatever tame publications are registered, their composition is readable at
      every instant. */
  lemma TameInput(env: Env, config: ControllerConfig, st: ControllerState, now: i64)
    requires Tame(st)
    ensures Readable(env, InputOf(config, st, now))
  {
    hide PublicationList, TameRecord, Readable;
    forall r | r in InputOf(config, st, now).publications ensures TameRecord(r) {}
    NoPoolAloneIsReadable(env, InputOf(config, st, now));
  }

  function SnapshotOf(world: World, site: ComposedSite, now: i64): Snapshot {
    Stamped(world.chain,
      Snapshot(site.site, site.epoch, site.generation, site.incarnation, 0, ZERO_DIGEST, ZERO_DIGEST, now, site.lifecycle,
               site.status, site.membershipComplete && site.lifecycle == CurrentSite, AllSources(site.decisions), site), 0)
  }

  function LeaseRequest(config: ControllerConfig, st: ControllerState, generation: u64, now: i64): Request {
    Request(config.id, config.site, st.epoch, st.incarnation, generation, now, config.leaseTtl)
  }

  datatype Recomposition = Recomposition(state: ControllerState, status: Status, composed: Option<ComposedSite>)

  /** Publishes a composed site on the chain under a fresh lease. */
  function Offered(world: World, config: ControllerConfig, st: ControllerState, site: ComposedSite,
      generation: u64, now: i64): Recomposition {
    var grant := Acquire(st.sites, LeaseRequest(config, st, generation, now));
    var leased := st.(sites := grant.sites);
    if !grant.status.IsOk() || grant.token.None? then Recomposition(leased, grant.status, Some(site))
    else
      var snapshot := SnapshotOf(world, site, now);
      var verdict := VerdictOn(world.chain, st.history, snapshot, grant.token.value, now);
      if verdict != Status.Published then Recomposition(leased, verdict, Some(site))
      else
        var stamped := Stamped(world.chain, snapshot, NextSequence(st.history));
        Recomposition(
          leased.(siteGeneration := generation,
                  history := if st.history == [] then [stamped] else Newest(st.history + [stamped], LimitFor(config.snapshotHistory))),
          verdict, Some(site))
  }

  function Recompose(world: World, config: ControllerConfig, st: ControllerState, now: i64): Recomposition
    requires Tame(st)
  {
    TameInput(world.env, config, st, now);
    var composed := ComposeSite(world.env, InputOf(config, st, now));
    if composed.Failure? then Recomposition(st, composed.status, None)
    else Offered(world, config, st, composed.value, Saturating(st.siteGeneration), now)
  }

  /** What a recomposition leaves alone: everything but leases, generation and
      chain. */
  ghost predicate SameRegistry(a: ControllerState, b: ControllerState) {
    && a.publications == b.publications && a.retirements == b.retirements && a.revoked == b.revoked
    && a.reconstructed == b.reconstructed && a.acceptance == b.acceptance && a.members == b.members
    && a.epoch == b.epoch && a.incarnation == b.incarnation
  }

  lemma OfferedEffect(world: World, config: ControllerConfig, st: ControllerState, site: ComposedSite,
      generation: u64, now: i64)
    ensures var r := Offered(world, config, st, site, generation, now);
            && SameRegistry(r.state, st) && r.composed == Some(site)
            && r.state.siteGeneration == if r.status == Status.Published then generation else st.siteGeneration
  {
    hide Acquire, VerdictOn, SnapshotOf, NextSequence, Newest;
    AcquireIsNotPublished(st.sites, LeaseRequest(config, st, generation, now));
  }

  lemma RecomposeEffect(world: World, config: ControllerConfig, st: ControllerState, now: i64)
    requires Tame(st)
    ensures Readable(world.env, InputOf(config, st, now))
    ensures var r, c := Recompose(world, config, st, now), ComposeSite(world.env, InputOf(config, st, now));
            && SameRegistry(r.state, st)
            && r.state.siteGeneration == (if r.status == Status.Published then Saturating(st.siteGeneration) else st.siteGeneration)
            && r.composed == if c.Success? then Some(c.value) else None
  {
    hide ComposeSite, Offered, PublicationList, Tame, Readable;
    TameInput(world.env, config, st, now);
    var input := InputOf(config, st, now);
    RefusalIsNotPublished(world.env, input);
    if ComposeSite(world.env, input).Success? {
      OfferedEffect(world, config, st, ComposeSite(world.env, input).value, Saturating(st.siteGeneration), now);
    }
  }

  lemma RefusalIsNotPublished(env: Env, input: CompositionInput)
    requires Readable(env, input)
    ensures ComposeSite(env, input).Failure? ==> ComposeSite(env, input).status != Status.Published
  {
    hide SiteFrom, AdmissionsFor, ResourcesOf, Readable, ValidIdentifier;
    if Prepared(input).Failure? {
      NeverPublished(ExpectationFor(input));
    }
  }

  lemma NeverPublished(e: SiteExpectation)
    ensures CanonicalExpectation(e).Failure? ==> CanonicalExpectation(e).status != Status.Published
  {
    hide ValidIdentifier, Order.StableSort, SoundMember;
    UnsoundStatus(Order.StableSort(e.members, MemberText));
  }

  lemma {:induction false} UnsoundStatus(members: seq<ExpectedMember>)
    ensures FirstUnsound(members).Some? ==> FirstUnsound(members).value != Status.Published
  {
    hide SoundMember;
    if members != [] { UnsoundStatus(members[1..]); }
  }

  lemma AcquireIsNotPublished(s: Sites, q: Request)
    ensures Acquire(s, q).status != Status.Published
  {
    hide ValidIdentifier;
  }

  // ----- Steps --------------------------------------------------------------

  datatype ControllerEvent =
    | Hello(domain: MemberDomainKey, incarnation: Incarnation, site: Text, observedEpoch: u64, now: i64)
    | PublishDeclaration(publisher: Text, incarnation: Incarnation, declaration: Declaration, attempt: PublishAttempt, now: i64)
    | RetireMember(domain: MemberDomainKey, generation: u64, incarnation: Incarnation, reason: Text, now: i64)
    | RevokeMember(domain: MemberDomainKey, now: i64)
    | SessionEnd(domain: MemberDomainKey, incarnation: Incarnation, now: i64)
    | RecomposeNow(now: i64)

  datatype Step = Step(state: ControllerState, status: Status)

  function AfterHello(config: ControllerConfig, st: ControllerState, d: MemberDomainKey, incarnation: Incarnation,
      site: Text,
      observedEpoch: u64, now: i64): Step
  {
    if site != config.site then Step(st, Status.SiteMismatch)
    else if observedEpoch > st.epoch then Step(st, Status.EpochMismatch)
    else
      var admitted := Fencing.Admit(st.members, d, incarnation, now);
      if !admitted.status.IsOk() then Step(st.(members := admitted.members), admitted.status)
      else Step(st.(members := admitted.members, reconstructed := Removed(st.reconstructed, d)), Status.Ok)
  }

  function OfferOf(d: Declaration, observedEpoch: u64, incarnation: Incarnation,
      attempt: PublishAttempt): Fencing.Offer {
    Fencing.Offer(d.domain, observedEpoch, incarnation, d.generation, d.digest, attempt)
  }

  /** The sealed declaration an accepted publication stands for. */
  function AcceptedDeclaration(world: World, config: ControllerConfig, st: ControllerState,
      incarnation: Incarnation, declaration: Declaration,
      attempt: PublishAttempt): Outcome<Declaration>
  {
    if !declaration.domain.Valid() || declaration.site != config.site then Failure(Status.SiteMismatch)
    else
      var sealed := SealOf(world.hash, declaration);
      if sealed.Failure? then sealed
      else if declaration.digest != ZERO_DIGEST && declaration.digest != sealed.value.digest then
        Failure(Status.DigestMismatchDeclaration)
      else
        var fenced := Fencing.Fence(st.members, OfferOf(sealed.value, declaration.observedEpoch, incarnation, attempt));
        if !fenced.IsOk() then Failure(fenced) else sealed
  }

  function RecordFor(config: ControllerConfig, st: ControllerState, publisher: Text, incarnation: Incarnation,
      sealed: Declaration,
      observedEpoch: u64, attempt: PublishAttempt, now: i64): PublicationRecord
  {
    PublicationRecord(sealed.domain, sealed.generation, sealed.digest, sealed.schema, sealed.site, observedEpoch, incarnation,
                      publisher, attempt, now, Wrap64(st.acceptance + 1),
                      if config.retainDeclarations then Some(sealed) else None)
  }

  /** A publication that passed the fence, registered. */
  function Registered(config: ControllerConfig, st: ControllerState, record: PublicationRecord,
      sealed: Declaration): ControllerState {
    st.(publications := st.publications[record.domain := record],
        reconstructed := Removed(st.reconstructed, record.domain),
        acceptance := Wrap64(st.acceptance + 1),
        members := Fencing.Record(st.members, OfferOf(sealed, record.observedEpoch, record.incarnation, record.attempt)).1)
  }

  function MaybeRecomposed(world: World, config: ControllerConfig, st: ControllerState, now: i64): ControllerState
    requires Tame(st)
  {
    if config.composeOnPublish then Recompose(world, config, st, now).state else st
  }

  /** What is registered of the declaration leaves no pool alone under the key of a link
      or a gateway. */
  ghost predicate TameDeclaration(world: World, declaration: Declaration) {
    SealOf(world.hash, declaration).Success? ==> NoPoolAlone(SealOf(world.hash, declaration).value.lists)
  }

  lemma RegisteredIsTame(world: World, config: ControllerConfig, st: ControllerState, record: PublicationRecord,
      declaration: Declaration, sealed: Declaration)
    requires Tame(st) && TameDeclaration(world, declaration) && SealOf(world.hash, declaration) == Success(sealed)
    requires record.declaration == None || record.declaration == Some(sealed)
    ensures Tame(Registered(config, st, record, sealed))
  {
    hide SealOf, NoPoolAlone;
    assert TameRecord(record);
    hide TameRecord;
  }

  function AfterPublish(world: World, config: ControllerConfig, st: ControllerState, publisher: Text,
      incarnation: Incarnation,
      declaration: Declaration, attempt: PublishAttempt, now: i64): Step
    requires Tame(st) && TameDeclaration(world, declaration)
  {
    hide SealOf, Tame, TameDeclaration, Recompose;
    var accepted := AcceptedDeclaration(world, config, st, incarnation, declaration, attempt);
    if accepted.Failure? then Step(st, accepted.status)
    else
      AcceptedIsSealed(world, config, st, incarnation, declaration, attempt);
      var record := RecordFor(config, st, publisher, incarnation, accepted.value, declaration.observedEpoch, attempt, now);
      RegisteredIsTame(world, config, st, record, declaration, accepted.value);
      Step(MaybeRecomposed(world, config, Registered(config, st, record, accepted.value), now), Status.Accepted)
  }

  lemma AcceptedIsSealed(world: World, config: ControllerConfig, st: ControllerState, incarnation: Incarnation,
      declaration: Declaration, attempt: PublishAttempt)
    requires AcceptedDeclaration(world, config, st, incarnation, declaration, attempt).Success?
    ensures SealOf(world.hash, declaration) == AcceptedDeclaration(world, config, st, incarnation, declaration, attempt)
  {
    hide SealOf;
  }

  function RetirementFor(st: ControllerState, d: MemberDomainKey, generation: u64, incarnation: Incarnation,
      reason: Text, now: i64): RetirementRecord {
    RetirementRecord(d, generation, incarnation, now, Wrap64(st.acceptance + 1), reason)
  }

  function AfterRetire(world: World, config: ControllerConfig, st: ControllerState, d: MemberDomainKey, generation: u64,
      incarnation: Incarnation, reason: Text, now: i64): Step
    requires Tame(st)
  {
    if !d.Valid() then Step(st, Status.Invalid)
    else if !st.members.Live(d, incarnation) then Step(st, Status.FencedIncarnation)
    else
      var retired := st.(
        retirements := st.retirements + [RetirementFor(st, d, generation, incarnation, reason, now)],
        reconstructed := Removed(st.reconstructed, d), acceptance := Wrap64(st.acceptance + 1),
        members := Fencing.Retire(st.members, d, incarnation).1);
      Step(MaybeRecomposed(world, config, retired, now), Status.Accepted)
  }

  function AfterRevoke(world: World, config: ControllerConfig, st: ControllerState, d: MemberDomainKey, now: i64): Step
    requires Tame(st)
  {
    if !d.Valid() then Step(st, Status.Invalid)
    else
      var r := Recompose(world, config, st.(revoked := Added(st.revoked, d)), now);
      Step(r.state, r.status)
  }

  function AfterSessionEnd(world: World, config: ControllerConfig, st: ControllerState, d: MemberDomainKey,
      incarnation: Incarnation,
      now: i64): Step
    requires Tame(st)
  {
    var ended := st.(members := Fencing.Retire(st.members, d, incarnation).1, reconstructed := Added(st.reconstructed, d));
    var r := Recompose(world, config, ended, now);
    Step(r.state, r.status)
  }

  ghost predicate TameEvent(world: World, ev: ControllerEvent) {
    ev.PublishDeclaration? ==> TameDeclaration(world, ev.declaration)
  }

  function After(world: World, config: ControllerConfig, st: ControllerState, ev: ControllerEvent): Step
    requires Tame(st) && TameEvent(world, ev)
  {
    match ev
    case Hello(d, i, site, observedEpoch, now) => AfterHello(config, st, d, i, site, observedEpoch, now)
    case PublishDeclaration(publisher, i, declaration, attempt, now) =>
      AfterPublish(world, config, st, publisher, i, declaration, attempt, now)
    case RetireMember(d, generation, i, reason, now) => AfterRetire(world, config, st, d, generation, i, reason, now)
    case RevokeMember(d, now) => AfterRevoke(world, config, st, d, now)
    case SessionEnd(d, i, now) => AfterSessionEnd(world, config, st, d, i, now)
    case RecomposeNow(now) =>
      var r := Recompose(world, config, st, now);
      Step(r.state, r.status)
  }

  // ----- What a step changes ------------------------------------------------

  /** The generation of the site stays or goes up by one publication. */
  ghost predicate GenerationStep(before: ControllerState, after: ControllerState) {
    after.siteGeneration == before.siteGeneration || after.siteGeneration == Saturating(before.siteGeneration)
  }

  lemma MaybeEffect(world: World, config: ControllerConfig, st: ControllerState, now: i64)
    requires Tame(st)
    ensures var r := MaybeRecomposed(world, config, st, now); SameRegistry(r, st) && GenerationStep(st, r)
  {
    hide Recompose, Tame;
    if config.composeOnPublish { RecomposeEffect(world, config, st, now); }
  }

  lemma PublishEffect(world: World, config: ControllerConfig, st: ControllerState, publisher: Text,
      incarnation: Incarnation,
      declaration: Declaration, attempt: PublishAttempt, now: i64)
    requires Tame(st) && TameDeclaration(world, declaration)
    ensures var accepted := AcceptedDeclaration(world, config, st, incarnation, declaration, attempt);
            var r := AfterPublish(world, config, st, publisher, incarnation, declaration, attempt, now);
            && (accepted.Failure? ==> r.state == st && r.status == accepted.status)
            && (accepted.Success? ==>
                 var record := RecordFor(config, st, publisher, incarnation, accepted.value, declaration.observedEpoch, attempt, now);
                 && r.status == Status.Accepted && SameRegistry(r.state, Registered(config, st, record, accepted.value))
                 && GenerationStep(st, r.state) && Tame(Registered(config, st, record, accepted.value)))
  {
    hide SealOf, Tame, TameDeclaration, MaybeRecomposed, AcceptedDeclaration;
    var accepted := AcceptedDeclaration(world, config, st, incarnation, declaration, attempt);
    if accepted.Success? {
      AcceptedIsSealed(world, config, st, incarnation, declaration, attempt);
      var record := RecordFor(config, st, publisher, incarnation, accepted.value, declaration.observedEpoch, attempt, now);
      RegisteredIsTame(world, config, st, record, declaration, accepted.value);
      MaybeEffect(world, config, Registered(config, st, record, accepted.value), now);
    }
  }

  lemma RetireEffect(world: World, config: ControllerConfig, st: ControllerState, d: MemberDomainKey, generation: u64,
      incarnation: Incarnation, reason: Text, now: i64)
    requires Tame(st)
    ensures var r := AfterRetire(world, config, st, d, generation, incarnation, reason, now);
            var accepted := d.Valid() && st.members.Live(d, incarnation);
            && GenerationStep(st, r.state) && r.state.publications == st.publications && r.state.revoked == st.revoked
            && (accepted <==> r.status == Status.Accepted)
            && r.state.acceptance == (if accepted then Wrap64(st.acceptance + 1) else st.acceptance)
            && r.state.reconstructed == (if accepted then Removed(st.reconstructed, d) else st.reconstructed)
            && r.state.retirements ==
               (if accepted then st.retirements + [RetirementFor(st, d, generation, incarnation, reason, now)] else st.retirements)
  {
    hide MaybeRecomposed, Removed, Fencing.Retire, Tame, ValidIdentifier;
    if d.Valid() && st.members.Live(d, incarnation) {
      var retired := st.(
        retirements := st.retirements + [RetirementFor(st, d, generation, incarnation, reason, now)],
        reconstructed := Removed(st.reconstructed, d), acceptance := Wrap64(st.acceptance + 1),
        members := Fencing.Retire(st.members, d, incarnation).1);
      SamePublicationsTame(st, retired);
      MaybeEffect(world, config, retired, now);
    }
  }

  lemma SamePublicationsTame(a: ControllerState, b: ControllerState)
    requires Tame(a) && a.publications == b.publications
    ensures Tame(b)
  {
  }

  lemma RevokeEffect(world: World, config: ControllerConfig, st: ControllerState, d: MemberDomainKey, now: i64)
    requires Tame(st)
    ensures var r := AfterRevoke(world, config, st, d, now);
            && GenerationStep(st, r.state) && r.state.publications == st.publications && r.state.retirements == st.retirements
            && r.state.reconstructed == st.reconstructed && r.state.acceptance == st.acceptance
            && r.state.revoked == if d.Valid() then Added(st.revoked, d) else st.revoked
  {
    hide Recompose, Tame, Added, ValidIdentifier;
    SamePublicationsTame(st, st.(revoked := Added(st.revoked, d)));
    if d.Valid() { RecomposeEffect(world, config, st.(revoked := Added(st.revoked, d)), now); }
  }

  lemma SessionEndEffect(world: World, config: ControllerConfig, st: ControllerState, d: MemberDomainKey,
      incarnation: Incarnation, now: i64)
    requires Tame(st)
    ensures var r := AfterSessionEnd(world, config, st, d, incarnation, now);
            && GenerationStep(st, r.state) && r.state.publications == st.publications && r.state.retirements == st.retirements
            && r.state.revoked == st.revoked && r.state.acceptance == st.acceptance
            && r.state.reconstructed == Added(st.reconstructed, d)
            && r.state.members == Fencing.Retire(st.members, d, incarnation).1
  {
    hide Recompose, Tame, Added, Fencing.Retire;
    var ended := st.(members := Fencing.Retire(st.members, d, incarnation).1, reconstructed := Added(st.reconstructed, d));
    SamePublicationsTame(st, ended);
    RecomposeEffect(world, config, ended, now);
  }

  lemma StepKeepsTame(world: World, config: ControllerConfig, st: ControllerState, ev: ControllerEvent)
    requires Tame(st) && TameEvent(world, ev)
    ensures Tame(After(world, config, st, ev).state)
  {
    hide TameDeclaration, Recompose, AcceptedDeclaration, Registered, Fencing.Admit, Fencing.Retire, AfterPublish,
      AfterRetire, AfterRevoke,
      AfterSessionEnd, Tame;
    var after := After(world, config, st, ev).state;
    match ev
    case Hello(d, i, site, observedEpoch, now) => SamePublicationsTame(st, after);
    case PublishDeclaration(publisher, i, declaration, attempt, now) =>
      PublishEffect(world, config, st, publisher, i, declaration, attempt, now);
      var accepted := AcceptedDeclaration(world, config, st, i, declaration, attempt);
      if accepted.Success? {
        var record := RecordFor(config, st, publisher, i, accepted.value, declaration.observedEpoch, attempt, now);
        SamePublicationsTame(Registered(config, st, record, accepted.value), after);
      }
    case RetireMember(d, generation, i, reason, now) =>
      RetireEffect(world, config, st, d, generation, i, reason, now);
      SamePublicationsTame(st, after);
    case RevokeMember(d, now) =>
      RevokeEffect(world, config, st, d, now);
      SamePublicationsTame(st, after);
    case SessionEnd(d, i, now) =>
      SessionEndEffect(world, config, st, d, i, now);
      SamePublicationsTame(st, after);
    case RecomposeNow(now) =>
      RecomposeEffect(world, config, st, now);
      SamePublicationsTame(st, after);
  }

  // ----- Runs ---------------------------------------------------------------

  function RunFrom(world: World, config: ControllerConfig, st: ControllerState,
      events: seq<ControllerEvent>): (r: ControllerState)
    requires Tame(st) && forall i | 0 <= i < |events| :: TameEvent(world, events[i])
    ensures Tame(r)
  {
    hide After, Tame, TameEvent;
    if events == [] then st
    else
      var before := RunFrom(world, config, st, events[..|events| - 1]);
      StepKeepsTame(world, config, before, events[|events| - 1]);
      After(world, config, before, events[|events| - 1]).state
  }

  // ----- Who is never CURRENT -----------------------------------------------

  /** The domain is known not to count: its session ended and it has not reported
      since, or it retired, or it was revoked. */
  predicate Silenced(st: ControllerState, d: MemberDomainKey) {
    || d in st.reconstructed || d in st.revoked
    || exists i | 0 <= i < |st.retirements| :: st.retirements[i].domain == d
  }

  /** No composition reports a silenced domain CURRENT. */
  lemma SilencedIsNotCurrent(world: World, config: ControllerConfig, st: ControllerState, d: MemberDomainKey, now: i64)
    requires Tame(st) && Silenced(st, d)
    ensures var r := Recompose(world, config, st, now);
            r.composed.Some? && d in r.composed.value.members ==> r.composed.value.members[d].lifecycle != CurrentMember
  {
    hide Recompose, Tame, PublicationList, ComposeSite, Readable;
    var input := InputOf(config, st, now);
    RecomposeEffect(world, config, st, now);
    if ComposeSite(world.env, input).Success? { NotCurrentIn(world.env, input, d); }
  }

  lemma NotCurrentIn(env: Env, input: CompositionInput, d: MemberDomainKey)
    requires Readable(env, input) && ComposeSite(env, input).Success?
    requires d in input.reconstructed || d in input.revoked || Retired(input, d)
    ensures d in ComposeSite(env, input).value.members ==> ComposeSite(env, input).value.members[d].lifecycle != CurrentMember
  {
    hide *;
    var e := PreparedFor(env, input);
    var admissions := AdmissionsFor(env, input, e);
    SiteParts(env, input, e, admissions);
    if d in admissions { AdmittedSilenced(env, input, e, d); }
    StateOfMember(admissions, e, d);
  }

  lemma StateOfMember(admissions: Admissions, e: SiteExpectation, d: MemberDomainKey)
    ensures var m := MembersOf(admissions, e);
            d in m ==> m[d].lifecycle == if d in admissions then admissions[d].lifecycle else AbsentMember
  {
    hide Find;
  }

  lemma AdmittedSilenced(env: Env, input: CompositionInput, e: SiteExpectation, d: MemberDomainKey)
    requires d in AdmissionsFor(env, input, e) && DistinctDomains(e.members)
    requires d in input.reconstructed || d in input.revoked || Retired(input, d)
    ensures AdmissionsFor(env, input, e)[d].lifecycle != CurrentMember
  {
    hide Best, Find, DistinctDomains;
    SelectionIsTheMaximum(input.publications, d);
    var r := Best(input.publications)[d];
    assert r.domain == d;
    CurrentIff(env, input, e, r);
  }

  /** The event lets the domain count again: an admitted hello of it, or an
      accepted publication of it. */
  predicate Readmits(world: World, config: ControllerConfig, st: ControllerState, ev: ControllerEvent,
      d: MemberDomainKey) {
    match ev
    case Hello(e, i, site, observedEpoch, now) =>
      e == d && site == config.site && observedEpoch <= st.epoch && Fencing.Admit(st.members, e, i, now).status.IsOk()
    case PublishDeclaration(_, i, declaration, attempt, _) =>
      declaration.domain == d && AcceptedDeclaration(world, config, st, i, declaration, attempt).Success?
    case _ => false
  }

  lemma SealKeepsTheDomain(world: World, config: ControllerConfig, st: ControllerState, incarnation: Incarnation,
      declaration: Declaration, attempt: PublishAttempt)
    requires AcceptedDeclaration(world, config, st, incarnation, declaration, attempt).Success?
    ensures AcceptedDeclaration(world, config, st, incarnation, declaration, attempt).value.domain == declaration.domain
  {
    hide CanonicalLists, HeaderRefusal, Content, Fencing.Fence, ValidIdentifier;
    AcceptedIsSealed(world, config, st, incarnation, declaration, attempt);
  }

  /** Silence lasts until the domain is readmitted; retirement and revocation last
      for good. */
  lemma StepKeepsSilence(world: World, config: ControllerConfig, st: ControllerState, ev: ControllerEvent,
      d: MemberDomainKey)
    requires Tame(st) && TameEvent(world, ev)
    ensures Silenced(st, d) && !Readmits(world, config, st, ev, d) ==> Silenced(After(world, config, st, ev).state, d)
    ensures d in st.revoked ==> d in After(world, config, st, ev).state.revoked
    ensures st.retirements <= After(world, config, st, ev).state.retirements
  {
    hide TameDeclaration, Recompose, AcceptedDeclaration, Fencing.Admit, Fencing.Retire, Fencing.Record,
      AfterPublish, AfterRetire, AfterRevoke,
      AfterSessionEnd, Tame, Removed, Added;
    var after := After(world, config, st, ev).state;
    match ev
    case Hello(e, i, site, observedEpoch, now) =>
    case PublishDeclaration(publisher, i, declaration, attempt, now) =>
      PublishKeepsSilence(world, config, st, publisher, i, declaration, attempt, now, d);
    case RetireMember(e, generation, i, reason, now) =>
      RetireEffect(world, config, st, e, generation, i, reason, now);
      LongerRetirements(st, after, d);
    case RevokeMember(e, now) => RevokeEffect(world, config, st, e, now);
    case SessionEnd(e, i, now) => SessionEndEffect(world, config, st, e, i, now);
    case RecomposeNow(now) => RecomposeEffect(world, config, st, now);
  }

  lemma PublishKeepsSilence(world: World, config: ControllerConfig, st: ControllerState, publisher: Text,
      incarnation: Incarnation, declaration: Declaration, attempt: PublishAttempt, now: i64, d: MemberDomainKey)
    requires Tame(st) && TameDeclaration(world, declaration)
    ensures var after := AfterPublish(world, config, st, publisher, incarnation, declaration, attempt, now).state;
            var accepted := AcceptedDeclaration(world, config, st, incarnation, declaration, attempt).Success?;
            && after.revoked == st.revoked && after.retirements == st.retirements
            && (d in st.reconstructed && !(accepted && declaration.domain == d) ==> d in after.reconstructed)
  {
    hide Tame, TameDeclaration, AfterPublish, AcceptedDeclaration, Fencing.Record, Removed, GenerationStep;
    PublishEffect(world, config, st, publisher, incarnation, declaration, attempt, now);
    if AcceptedDeclaration(world, config, st, incarnation, declaration, attempt).Success? {
      SealKeepsTheDomain(world, config, st, incarnation, declaration, attempt);
    }
  }

  lemma LongerRetirements(st: ControllerState, after: ControllerState, d: MemberDomainKey)
    requires st.revoked == after.revoked && st.retirements <= after.retirements
    requires d in st.reconstructed ==> d in after.reconstructed || (after.retirements != [] && after.retirements[|after.retirements| - 1].domain == d)
    ensures Silenced(st, d) ==> Silenced(after, d)
  {
    if i :| 0 <= i < |st.retirements| && st.retirements[i].domain == d {
      assert after.retirements[i].domain == d;
    }
  }
}
