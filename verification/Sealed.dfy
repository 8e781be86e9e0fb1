/** What sealing gives to a composition: a sealed declaration is intact and valid,
    says no more than one thing about a resource besides what it contributes, and
    counts as soon as it is accepted. */
module SealedSites {
  import opened Model
  import opened RecordCodec
  import opened Seal
  import opened Admission
  import opened Attribution
  import opened Membership
  import opened Decisions
  import opened Capacity
  import opened Ledger
  import opened Maintenance
  import opened Compose
  import opened Controller
  import opened ControllerRuns
  import opened Chain
  import opened SourceBounds
  import Compaction
  import Fencing
  import Order
  import Sealable

  // ----- The digests and the validation of the site --------------------------

  /** Validation canonicalises a copy. */
  function Validate(hash: Bytes -> Digest, d: Declaration): Status {
    var c := Canonicalized(hash, d);
    if c.Failure? then c.status else Status.Ok
  }

  /** Everything the composition is given is computed with the hash. */
  ghost predicate Genuine(env: Env, hash: Bytes -> Digest) {
    && (forall d :: env.digestOf(d) == hash(Content(d)))
    && (forall d :: env.validate(d) == Validate(hash, d))
    && (forall c :: env.claimDigest(c) == ClaimDigest(hash, c))
  }

  function SiteEnv(hash: Bytes -> Digest): (env: Env)
    ensures Genuine(env, hash)
  {
    Env(d => hash(Content(d)), d => Validate(hash, d), c => ClaimDigest(hash, c))
  }

  ghost predicate IsSealed(hash: Bytes -> Digest, s: Declaration) { s.Typed() && SealOf(hash, s) == Success(s) }

  /** A sealed declaration passes the two checks of admission that look inside it. */
  lemma SealedIsIntact(env: Env, hash: Bytes -> Digest, s: Declaration)
    requires Genuine(env, hash) && SealOf(hash, s) == Success(s)
    ensures env.digestOf(s) == s.digest && env.validate(s) == Status.Ok
  {
    hide CanonicalLists, HeaderRefusal, PutLists;
    var c := Canonicalized(hash, s);
    assert Content(s) == Content(c.value);
  }

  /** Sealing yields sealed declarations. */
  lemma SealingSeals(hash: Bytes -> Digest, d: Declaration)
    requires d.Typed() && SealOf(hash, d).Success?
    ensures IsSealed(hash, SealOf(hash, d).value)
  {
    hide SealOf, CanonicalList, HeaderRefusal, Content;
    var s := SealOf(hash, d).value;
    SealingIsIdempotent(hash, d);
    SealsIff(hash, d);
    forall i, j | 0 <= i < 9 && 0 <= j < |s.lists[i]| ensures s.lists[i][j].List() == i {
      FromTheList(hash, i, d.lists[i], s.lists[i][j]);
    }
  }

  lemma FromTheList(hash: Bytes -> Digest, list: nat, claims: seq<Claim>, c: Claim)
    requires CanonicalList(hash, list, claims).Success? && c in CanonicalList(hash, list, claims).value
    requires forall j | 0 <= j < |claims| :: claims[j].List() == list
    ensures c.List() == list
  {
    hide CanonicalList, TidyAll, Norm, KeyText;
    CanonicalListIff(hash, list, claims);
    TidiedWhenCanonical(hash, list, claims);
    TidyAllIff(hash, claims);
    var items := TidyAll(hash, claims).value;
    assert c in items;
    var i :| 0 <= i < |items| && items[i] == c;
    assert c == Norm(claims[i]);
  }

  // ----- One claim about each resource ---------------------------------------

  /** A sealed declaration makes two claims about a resource only when one of them
      contributes capacity under its key, and two contributions only in different
      scopes. */
  lemma SaysOnce(hash: Bytes -> Digest, s: Declaration, b: Claim, c: Claim)
    requires IsSealed(hash, s) && InLists(s.lists, b) && InLists(s.lists, c) && b.Key() == c.Key()
    ensures b == c || (b.PoolClaim? && c.PoolClaim? && b.scope != c.scope) || b.PoolClaim? != c.PoolClaim?
  {
    hide SealOf;
    var i, j :| 0 <= i < |s.lists| && 0 <= j < |s.lists[i]| && s.lists[i][j] == b;
    var k, l :| 0 <= k < |s.lists| && 0 <= l < |s.lists[k]| && s.lists[k][l] == c;
    assert b.List() == i && c.List() == k;
    SealedListsAreOrdered(hash, s, i);
    if i == k && KeyText(b) == KeyText(c) {
      hide KeyText;
      if j < l { Order.LessAsymmetric(KeyText(s.lists[i][j]), KeyText(s.lists[i][l])); }
      if l < j { Order.LessAsymmetric(KeyText(s.lists[i][l]), KeyText(s.lists[i][j])); }
    }
  }

  /** A resource belongs to somebody exactly when every admitted member that
      mentions it is CURRENT and all of them say the same about it first, and it is
      in dispute exactly when the first claims of two of them differ. */
  lemma OwnershipIff(env: Env, input: CompositionInput, key: ResourceKey)
    requires Readable(env, input) && ComposeSite(env, input).Success?
    requires key in ComposeSite(env, input).value.ownership
    ensures var admissions := AdmissionsFor(env, input, Prepared(input).value);
            var owner := ComposeSite(env, input).value.ownership[key];
            && (owner.status == Status.Ok <==> OnlyCurrentMention(admissions, key) && AgreedContent(env, admissions, key))
            && (owner.status == Disagreement(key.kind) <==> !AgreedContent(env, admissions, key))
            && forall s :: s in owner.attestors <==>
                 exists d :: d in admissions && Mentions(admissions[d], key) && s == admissions[d].record.Source()
  {
    hide *;
    var e := PreparedFor(env, input);
    var admissions := AdmissionsFor(env, input, e);
    FewAdmissions(env, input, e);
    AdmittedAreOwn(env, input, e);
    SiteParts(env, input, e, admissions);
    OwnershipAt(ResourcesOf(env, admissions), key);
    AttributedIff(env, admissions, key);
    AttestorsAreTheMentioners(env, admissions, key);
    Owned(ResourcesOf(env, admissions), ComposeSite(env, input).value.ownership, key);
  }

  lemma Owned(resources: Resources, ownership: map<ResourceKey, Attributed>, key: ResourceKey)
    requires ownership == OwnershipOf(resources) && key in resources
    ensures key in ownership
    ensures ownership[key].status == resources[key].status && ownership[key].attestors == Attestors(resources[key])
  {
  }

  // ----- An accepted publication counts ---------------------------------------

  /** Every registered publication is its domain's own. */
  ghost predicate Keyed(st: ControllerState) {
    forall d | d in st.publications :: st.publications[d].domain == d
  }

  lemma PublishKeepsKeyed(world: World, config: ControllerConfig, st: ControllerState, publisher: Text,
      incarnation: Incarnation,
      declaration: Declaration, attempt: PublishAttempt, now: i64)
    requires Tame(st) && TameDeclaration(world, declaration) && Keyed(st)
    ensures Keyed(AfterPublish(world, config, st, publisher, incarnation, declaration, attempt, now).state)
  {
    hide Tame, TameDeclaration, AcceptedDeclaration, MaybeRecomposed, AfterPublish, Removed, GenerationStep,
      Fencing.Record;
    PublishEffect(world, config, st, publisher, incarnation, declaration, attempt, now);
  }

  lemma StepKeepsKeyed(world: World, config: ControllerConfig, st: ControllerState, ev: ControllerEvent)
    requires Tame(st) && TameEvent(world, ev) && Keyed(st)
    ensures Keyed(After(world, config, st, ev).state)
  {
    hide *;
    StepPublications(world, config, st, ev);
    if ev.PublishDeclaration? {
      TameEventIs(world, ev);
      PublishKeepsKeyed(world, config, st, ev.publisher, ev.incarnation, ev.declaration, ev.attempt, ev.now);
    } else {
      SameKeyed(st, After(world, config, st, ev).state);
    }
  }

  lemma TameEventIs(world: World, ev: ControllerEvent)
    requires TameEvent(world, ev) && ev.PublishDeclaration?
    ensures TameDeclaration(world, ev.declaration)
  {
  }

  lemma SameKeyed(a: ControllerState, b: ControllerState)
    requires Keyed(a) && a.publications == b.publications
    ensures Keyed(b)
  {
  }

  /** Only a publication changes what is registered. */
  lemma StepPublications(world: World, config: ControllerConfig, st: ControllerState, ev: ControllerEvent)
    requires Tame(st) && TameEvent(world, ev)
    ensures ev.PublishDeclaration? ==>
      TameDeclaration(world, ev.declaration)
      && After(world, config, st, ev) == AfterPublish(world, config, st, ev.publisher, ev.incarnation, ev.declaration, ev.attempt, ev.now)
    ensures !ev.PublishDeclaration? ==> After(world, config, st, ev).state.publications == st.publications
  {
    hide Tame, TameDeclaration, AcceptedDeclaration, MaybeRecomposed, Recompose, AfterRetire, AfterRevoke,
      AfterSessionEnd,
      AfterPublish, Fencing.Admit, Removed, GenerationStep;
    match ev
    case Hello(d, i, site, observedEpoch, now) =>
    case PublishDeclaration(publisher, i, declaration, attempt, now) =>
    case RetireMember(d, generation, i, reason, now) => RetireEffect(world, config, st, d, generation, i, reason, now);
    case RevokeMember(d, now) => RevokeEffect(world, config, st, d, now);
    case SessionEnd(d, i, now) => SessionEndEffect(world, config, st, d, i, now);
    case RecomposeNow(now) => RecomposeEffect(world, config, st, now);
  }

  /** From a start, over every run. */
  lemma {:induction false} RunKeepsKeyed(world: World, config: ControllerConfig, st: ControllerState,
      events: seq<ControllerEvent>)
    requires Tame(st) && (forall i | 0 <= i < |events| :: TameEvent(world, events[i])) && Keyed(st)
    ensures Keyed(RunFrom(world, config, st, events))
  {
    hide Tame, TameEvent, After, Keyed;
    if events != [] {
      var front := events[..|events| - 1];
      RunKeepsKeyed(world, config, st, front);
      StepKeepsKeyed(world, config, RunFrom(world, config, st, front), events[|events| - 1]);
    }
  }

  lemma StartsKeyed(world: World, config: ControllerConfig, contents: Compaction.Contents, latest: Option<Snapshot>,
      incarnation: Incarnation, now: i64)
    requires forall p | p in contents.publications :: TameRecord(p)
    requires Started(world, config, contents, latest, incarnation, now).Success?
    ensures Keyed(Started(world, config, contents, latest, incarnation, now).value)
  {
    hide Started, TameRecord, RestoredState, RecoveredPublications;
    StartEffect(world, config, contents, latest, incarnation, now);
    RestoredPublications(contents, latest, incarnation);
    var recovered := RecoveredPublications(contents.publications);
    forall d | d in recovered ensures recovered[d].domain == d { RecoveredAt(contents.publications, d); }
  }

  /** What the site asks of a publication besides being accepted. */
  ghost predicate Welcome(config: ControllerConfig, st: ControllerState, s: Declaration, observedEpoch: u64, now: i64) {
    && s.domain !in st.revoked
    && (forall i | 0 <= i < |st.retirements| :: st.retirements[i].domain != s.domain)
    && observedEpoch <= st.epoch
    && InTerm(s.evidence, now)
    && (config.expectation.rejectUnexpected ==> exists m :: m in config.expectation.members && m.domain == s.domain)
    && forall m | m in config.expectation.members && m.domain == s.domain && m.pinned ::
         m.generation == s.generation && m.digest == s.digest
  }

  lemma AcceptedEligible(world: World, config: ControllerConfig, st: ControllerState, incarnation: Incarnation,
      declaration: Declaration, attempt: PublishAttempt)
    requires AcceptedDeclaration(world, config, st, incarnation, declaration, attempt).Success?
    ensures var s := AcceptedDeclaration(world, config, st, incarnation, declaration, attempt).value;
            && s.domain.Valid() && s.generation != 0 && s.digest != ZERO_DIGEST && s.site == config.site
            && s.schema.Supported() && s.domain == declaration.domain
  {
    hide CanonicalList, CanonicalLists, EvidenceRefusal, ValidIdentifier, Content;
    AcceptedIsSealed(world, config, st, incarnation, declaration, attempt);
    SealsIff(world.hash, declaration);
  }

  lemma RegisteredIsSelected(publications: map<MemberDomainKey, PublicationRecord>, r: PublicationRecord)
    requires (forall d | d in publications :: publications[d].domain == d) && Selectable(r)
    requires r.domain in publications && publications[r.domain] == r
    ensures var best := Best(PublicationList(publications)); r.domain in best && best[r.domain] == r
  {
    hide Best, Selectable, RanksBelow, Rank, PublicationList;
    var listed := PublicationList(publications);
    SelectionIsTheMaximum(listed, r.domain);
    assert r in listed;
  }

  /** The expectation a composition goes by has the configured members. */
  lemma ExpectationKept(input: CompositionInput)
    requires Prepared(input).Success?
    ensures var e := Prepared(input).value;
            && e.rejectUnexpected == input.expectation.rejectUnexpected
            && (forall m :: m in e.members <==> m in input.expectation.members) && DistinctDomains(e.members)
  {
    hide CanonicalExpectation, DistinctDomains, SoundMember, ValidIdentifier, Order.StrictlySorted;
    var e := Prepared(input).value;
    CanonicalExpectationIff(ExpectationFor(input));
    Order.SameElements(e.members, ExpectationFor(input).members);
  }

  lemma IntactIsAuthoritative(world: World, config: ControllerConfig, input: CompositionInput, e: SiteExpectation,
      st: ControllerState, r: PublicationRecord, s: Declaration)
    requires Genuine(world.env, world.hash) && SealOf(world.hash, s) == Success(s)
    requires r.declaration == Some(s) && r.digest == s.digest && r.domain == s.domain && r.generation == s.generation
    requires r.site == input.site && r.schema.Supported() && input.epoch == st.epoch
    requires r.domain !in input.reconstructed && input.revoked == st.revoked && input.retirements == st.retirements
    requires e.rejectUnexpected == config.expectation.rejectUnexpected
    requires forall m :: m in e.members <==> m in config.expectation.members
    ensures Authoritative(world.env, input, e, r) <==> Welcome(config, st, s, r.observedEpoch, input.now)
  {
    hide SealOf, Genuine;
    SealedIsIntact(world.env, world.hash, s);
  }

  /** An accepted publication counts at once and for as long as the site's own
      conditions hold: in any composition that follows it, at any instant, the
      domain is reported CURRENT exactly when it is neither revoked nor retired,
      its evidence is fresh and it fits the expectation and the epoch. */
  lemma AcceptedPublicationCounts(world: World, config: ControllerConfig, st: ControllerState, publisher: Text,
      incarnation: Incarnation, declaration: Declaration, attempt: PublishAttempt, now: i64, later: i64)
    requires Tame(st) && TameDeclaration(world, declaration) && Keyed(st)
    requires Genuine(world.env, world.hash) && config.retainDeclarations
    requires AcceptedDeclaration(world, config, st, incarnation, declaration, attempt).Success?
    ensures Tame(AfterPublish(world, config, st, publisher, incarnation, declaration, attempt, now).state)
    ensures var s := AcceptedDeclaration(world, config, st, incarnation, declaration, attempt).value;
            var after := AfterPublish(world, config, st, publisher, incarnation, declaration, attempt, now).state;
            var r := Recompose(world, config, after, later);
            r.composed.Some? ==>
              (&& s.domain in r.composed.value.members
               && (r.composed.value.members[s.domain].lifecycle == CurrentMember <==>
                     Welcome(config, st, s, declaration.observedEpoch, later)))
  {
    hide *;
    var s := AcceptedDeclaration(world, config, st, incarnation, declaration, attempt).value;
    var record := RecordFor(config, st, publisher, incarnation, s, declaration.observedEpoch, attempt, now);
    var after := AfterPublish(world, config, st, publisher, incarnation, declaration, attempt, now).state;
    PublishEffect(world, config, st, publisher, incarnation, declaration, attempt, now);
    AfterIs(config, st, record, s, after);
    RecordIs(config, st, publisher, incarnation, s, declaration.observedEpoch, attempt, now);
    SamePublicationsTame(Registered(config, st, record, s), after);
    RecomposeEffect(world, config, after, later);
    AcceptedEligible(world, config, st, incarnation, declaration, attempt);
    AcceptedIsSealed(world, config, st, incarnation, declaration, attempt);
    SealingIsIdempotent(world.hash, declaration);
    if Recompose(world, config, after, later).composed.Some? {
      CountsIn(world, config, st, after, record, s, later);
    }
  }

  lemma AfterIs(config: ControllerConfig, st: ControllerState, record: PublicationRecord, s: Declaration,
      after: ControllerState)
    requires SameRegistry(after, Registered(config, st, record, s))
    ensures after.publications == st.publications[record.domain := record] && after.revoked == st.revoked
    ensures after.retirements == st.retirements && after.epoch == st.epoch && record.domain !in after.reconstructed
    ensures after.publications == Registered(config, st, record, s).publications
  {
    hide Fencing.Record, Removed;
  }

  lemma RecordIs(config: ControllerConfig, st: ControllerState, publisher: Text, incarnation: Incarnation,
      s: Declaration,
      observedEpoch: u64, attempt: PublishAttempt, now: i64)
    requires config.retainDeclarations
    ensures var r := RecordFor(config, st, publisher, incarnation, s, observedEpoch, attempt, now);
            && r.declaration == Some(s) && r.digest == s.digest && r.domain == s.domain && r.generation == s.generation
            && r.site == s.site && r.schema == s.schema && r.observedEpoch == observedEpoch
  {
  }

  lemma CountsIn(world: World, config: ControllerConfig, st: ControllerState, after: ControllerState,
      record: PublicationRecord,
      s: Declaration, later: i64)
    requires Tame(after) && Keyed(st) && Genuine(world.env, world.hash) && SealOf(world.hash, s) == Success(s)
    requires after.publications == st.publications[record.domain := record] && after.revoked == st.revoked
    requires after.retirements == st.retirements && after.epoch == st.epoch && record.domain !in after.reconstructed
    requires record.declaration == Some(s) && record.digest == s.digest && record.domain == s.domain
    requires record.generation == s.generation && record.site == config.site && record.schema.Supported()
    requires s.domain.Valid() && s.generation != 0 && s.digest != ZERO_DIGEST
    requires Readable(world.env, InputOf(config, after, later))
    requires ComposeSite(world.env, InputOf(config, after, later)).Success?
    ensures var members := ComposeSite(world.env, InputOf(config, after, later)).value.members;
            && s.domain in members
            && (members[s.domain].lifecycle == CurrentMember <==> Welcome(config, st, s, record.observedEpoch, later))
  {
    hide *;
    var input := InputOf(config, after, later);
    InputIs(config, after, later);
    var e := PreparedFor(world.env, input);
    ExpectationKept(input);
    KeyedMore(st, record, after.publications);
    SelectableIs(record);
    RegisteredIsSelected(after.publications, record);
    SelectedIsAdmitted(world.env, input, e, record);
    var admissions := AdmissionsFor(world.env, input, e);
    SiteParts(world.env, input, e, admissions);
    StateOfMember(admissions, e, s.domain);
    IsMember(admissions, e, s.domain);
    CurrentIff(world.env, input, e, record);
    IntactIsAuthoritative(world, config, input, e, st, record, s);
  }

  lemma InputIs(config: ControllerConfig, st: ControllerState, now: i64)
    ensures var input := InputOf(config, st, now);
            && input.site == config.site && input.epoch == st.epoch && input.now == now && input.expectation == config.expectation
            && input.publications == PublicationList(st.publications) && input.retirements == st.retirements
            && input.revoked == st.revoked && input.reconstructed == st.reconstructed
  {
    hide PublicationList;
  }

  lemma KeyedMore(st: ControllerState, r: PublicationRecord, more: map<MemberDomainKey, PublicationRecord>)
    requires Keyed(st) && more == st.publications[r.domain := r]
    ensures forall d | d in more :: more[d].domain == d
  {
  }

  lemma SelectableIs(r: PublicationRecord)
    requires r.domain.Valid() && r.generation != 0 && r.digest != ZERO_DIGEST
    ensures Selectable(r)
  {
  }

  lemma SelectedIsAdmitted(env: Env, input: CompositionInput, e: SiteExpectation, r: PublicationRecord)
    requires var best := Best(input.publications); r.domain in best && best[r.domain] == r
    ensures var admissions := AdmissionsFor(env, input, e);
            r.domain in admissions && admissions[r.domain] == Admit(env, input, e, r)
  {
    hide Best, Admit;
  }

  lemma IsMember(admissions: Admissions, e: SiteExpectation, d: MemberDomainKey)
    requires d in admissions
    ensures d in MembersOf(admissions, e)
  {
  }

  // ----- What validation passes ------------------------------------------------

  /** Validation passes exactly the declarations that can be sealed. */
  lemma ValidatesIff(hash: Bytes -> Digest, d: Declaration)
    ensures Validate(hash, d).IsOk() <==> SealOf(hash, d).Success?
  {
    hide Canonicalized, Content;
    Sealable.SealingRefusedAs(hash, d);
  }

  lemma ValidatedIsWellFormed(hash: Bytes -> Digest, d: Declaration, c: Claim)
    requires Validate(hash, d).IsOk() && InLists(d.lists, c)
    ensures WellFormed(c)
  {
    hide Validate, SealOf, CanonicalList, WellFormed, Norm, Content, HeaderRefusal;
    ValidatesIff(hash, d);
    SealsIff(hash, d);
    var i, j :| 0 <= i < |d.lists| && 0 <= j < |d.lists[i]| && d.lists[i][j] == c;
    CanonicalListIff(hash, i, d.lists[i]);
    assert c in d.lists[i];
    assert Tidied(hash, c).Success?;
  }
}
